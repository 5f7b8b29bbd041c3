/** Storage rotation: the incremental size counter, the enforcement pass, and
    whole runs beside a tree and a partition that change on their own. */
module Rotations {
  import opened Machine
  import opened Retention

  const TICK: nat := 60 * SECOND
  const RECOUNT_PERIOD: nat := 60 * TICK

  datatype RetentionConfig = Fixed(budget: u64) | Auto(percent: nat)

  datatype Usage = Usage(total: u64, used: u64)

  /** What a failing removal has already done to the victim's files. */
  datatype Damage = Untouched | PgmOnly | Unlinked

  /** The removal of the plan's file `at` fails. */
  datatype Failure = Failure(at: nat, damage: Damage)

  /** What a pass meets: whether the scans succeed, the partition figures that its
      two readings give, and a removal that fails. */
  datatype Inputs = Inputs(
    journalBytes: u64, quarantineScans: bool, treeScans: bool,
    first: Option<Usage>, second: Option<Usage>, failure: Option<Failure>, now: nat)

  /** What one enforcement pass did: whether it scanned the tree, the readings it
      took, the deficit it worked against, the files it deleted, and whether a
      failing removal ended it. */
  datatype Pass = Pass(scanned: bool, readings: nat, deficit: nat, deleted: nat, aborted: bool)

  /** Degradation is reported when a pass that no removal ended leaves a deficit,
      and at most once per tick. */
  function Degraded(last: Option<nat>, now: nat, short: bool): Option<nat> {
    if short && (last.None? || Max(now - last.value, 0) >= TICK) then Some(now) else last
  }

  function ThresholdBytes(total: u64, percent: nat): u64 {
    Min(total * percent / 100, U64_MAX)
  }

  function ObservedDrop(last: Option<u64>, used: u64): u64 {
    if last.Some? then SatSub(last.value, used) else 0
  }

  /** `reconcile_pending_reclaim`. */
  function Reconciled(pending: u64, last: Option<u64>, used: u64): u64 {
    SatSub(pending, ObservedDrop(last, used))
  }

  /** The two fields that follow the partition. */
  datatype Watch = Watch(pending: u64, last: Option<u64>)

  function Observe(w: Watch, usage: Option<Usage>): Watch {
    if usage.None? then w else Watch(Reconciled(w.pending, w.last, usage.value.used), Some(usage.value.used))
  }

  function Watched(w: Watch, i: Inputs, readings: nat): Watch {
    if readings == 0 then w
    else if readings == 1 then Observe(w, i.first)
    else Observe(Observe(w, i.first), i.second)
  }

  /** What the fixed budget compares. */
  function ClippedSize(nonJournalBytes: u64, i: Inputs, disk: Disk): u64 {
    SatAdd(SatAdd(nonJournalBytes, i.journalBytes), FoldEvidence(0, disk.evidence))
  }

  function AutoDeficit(w: Watch, usage: Usage, percent: nat): u64 {
    SatSub(SatSub(usage.used, w.pending), ThresholdBytes(usage.total, percent))
  }

  /** An observed drop is credited to the pending figure, and nothing else is. */
  lemma DropIsCredited(w: Watch, u: Usage)
    ensures var after := Observe(w, Some(u));
      && after.last == Some(u.used)
      && (w.last.None? || w.last.value <= u.used ==> after.pending == w.pending)
      && (w.last.Some? && u.used < w.last.value ==>
            after.pending == if w.pending < w.last.value - u.used then 0 else w.pending - (w.last.value - u.used))
  {
  }

  /** With `d` bytes gone, the usage that is compared is at most the given percent
      of the partition. */
  ghost predicate WithinTarget(w: Watch, u: Usage, percent: nat, d: nat) {
    100 * (u.used - w.pending - d) <= u.total * percent
  }

  ghost predicate IsDeficit(w: Watch, u: Usage, percent: nat, d: nat) {
    WithinTarget(w, u, percent, d) && (d > 0 ==> !WithinTarget(w, u, percent, d - 1))
  }

  /** The deficit is the least number of bytes whose removal reaches the target, so
      the threshold is rounded down. */
  lemma DeficitIsLeast(w: Watch, u: Usage, percent: nat)
    ensures IsDeficit(w, u, percent, AutoDeficit(w, u, percent))
    ensures WithinTarget(w, u, percent, 0) <==> SatSub(u.used, w.pending) <= ThresholdBytes(u.total, percent)
  {
    var exact := u.total * percent;
    assert 100 * (exact / 100) <= exact < 100 * (exact / 100) + 100;
  }

  /** The tree after a failing removal of its plan's first file. */
  function Damaged(disk: Disk, damage: Damage): Disk {
    if Plan(disk) == [] || damage == Untouched then disk
    else
      var v := Plan(disk)[0];
      if damage == Unlinked then WithoutFirst(disk)
      else if !v.OldSegment? then disk
      else if v.s.ovf.None? then WithoutFirst(disk)
      else WithoutFirst(disk).(orphans := disk.orphans + [Orphan(v.s.id, v.s.ovf.value)])
  }

  /** Bytes that a failing removal unlinked all the same. */
  function Lost(v: Victim, damage: Damage): u64 {
    match damage
    case Untouched => 0
    case PgmOnly => if v.OldSegment? then v.s.pgm else 0
    case Unlinked => v.Bytes()
  }

  /** The pass deletes the shortest prefix of the plan that covers its deficit, or
      stops at the removal that fails before. */
  ghost predicate PassReaches(disk: Disk, failure: Option<Failure>, pass: Pass) {
    var reach := Cover(Plan(disk), pass.deficit);
    && pass.deleted <= |Plan(disk)|
    && (pass.aborted <==> failure.Some? && failure.value.at < reach)
    && pass.deleted == (if pass.aborted then failure.value.at else reach)
  }

  datatype Meters = Meters(nonJournalBytes: u64, watch: Watch)

  /** Whether a pass has to scan the tree: in fixed mode when the counted size is
      over the budget or the last recount is an hour old, in `auto` mode when the
      usage it reads is over the target. */
  ghost predicate MustScan(config: RetentionConfig, m: Meters, lastRecount: nat, disk: Disk, i: Inputs) {
    i.quarantineScans && i.treeScans &&
    match config
    case Fixed(budget) =>
      || Min(m.nonJournalBytes + i.journalBytes + EvidenceBytes(disk.evidence), U64_MAX) > budget
      || i.now >= lastRecount + 3600 * SECOND
    case Auto(percent) => i.first.Some? && !WithinTarget(Observe(m.watch, i.first), i.first.value, percent, 0)
  }

  /** What a pass leaves in the counters. In fixed mode the deficit is what the
      fresh count exceeds the budget by; in `auto` mode it is what the second
      reading of the partition exceeds the target by. */
  ghost predicate Passed(config: RetentionConfig, before: Meters, after: Meters, scanDue: bool,
                         disk: Disk, i: Inputs, pass: Pass)
    requires pass.deleted <= |Plan(disk)|
  {
    var deleted := Plan(disk)[..pass.deleted];
    && (pass.scanned <==> scanDue)
    && (!pass.scanned ==> pass.deficit == 0 && after.nonJournalBytes == before.nonJournalBytes)
    && (pass.scanned ==> after.nonJournalBytes == Max(CountableBytes(disk) - TreeFreed(deleted), 0))
    && (pass.scanned ==> pass.readings == 2)
    && (config.Fixed? ==> after.watch == before.watch)
    && (config.Fixed? && pass.scanned ==>
          pass.deficit == SatSub(ClippedSize(CountableBytes(disk), i, disk), config.budget))
    && (config.Auto? ==>
          var watched := Watched(before.watch, i, pass.readings);
          && after.watch == Watch(Min(watched.pending + Freed(deleted), U64_MAX), watched.last)
          && (pass.scanned && i.second.Some? ==> IsDeficit(watched, i.second.value, config.percent, pass.deficit))
          && (i.second.None? ==> pass.deficit == 0))
  }

  function LeftOver(disk: Disk, failure: Option<Failure>, pass: Pass): Disk {
    if pass.aborted && failure.Some? then Damaged(After(disk, pass.deleted), failure.value.damage)
    else After(disk, pass.deleted)
  }

  function CoverFrom(plan: seq<Victim>, deleted: nat, left: nat): nat
    requires deleted <= |plan|
  {
    deleted + Cover(plan[deleted..], left)
  }

  lemma CoverStep(plan: seq<Victim>, deleted: nat, left: nat)
    requires deleted < |plan| && left > 0
    ensures CoverFrom(plan, deleted, left) > deleted
    ensures CoverFrom(plan, deleted, left) == CoverFrom(plan, deleted + 1, Max(left - plan[deleted].Bytes(), 0))
  {
    assert plan[deleted..][1..] == plan[deleted + 1..];
  }

  class Rotation {
    const config: RetentionConfig
    var nonJournalBytes: u64
    var lastTick: nat
    var lastRecount: nat
    var lastDegradation: Option<nat>
    var pendingReclaim: u64
    var lastObservedUsed: Option<u64>

    constructor (config: RetentionConfig, disk: Disk, now: nat)
      ensures this.config == config && nonJournalBytes == Min(TreeBytes(disk), U64_MAX)
      ensures lastTick == now && lastRecount == now && lastDegradation == None
      ensures pendingReclaim == 0 && lastObservedUsed == None
    {
      CountableIsClippedSum(disk);
      this.config := config;
      nonJournalBytes := CountableBytes(disk);
      lastTick, lastRecount, lastDegradation := now, now, None;
      pendingReclaim, lastObservedUsed := 0, None;
    }

    function TimeUntilTick(now: nat): (left: nat)
      reads this
      ensures left == 0 <==> now >= lastTick + 60 * SECOND
      ensures lastTick <= now <= lastTick + 60 * SECOND ==> now + left == lastTick + 60 * SECOND
      ensures left <= 60 * SECOND
    {
      Max(TICK - Max(now - lastTick, 0), 0)
    }

    method RecordPublication(bytes: u64)
      modifies this`nonJournalBytes
      ensures nonJournalBytes == Min(old(nonJournalBytes) + bytes, U64_MAX)
    {
      nonJournalBytes := SatAdd(nonJournalBytes, bytes);
    }

    /** A confirmed removal leaves the counter and, in `auto` mode, stays pending. */
    method Account(victim: Victim, left: u64, freed: u64, ghost deficit: nat, ghost bytes: nat,
                   ghost counter: nat, ghost inTree: nat, ghost pending: nat) returns (less: u64, more: u64)
      requires left == Max(deficit - bytes, 0) && freed == Min(bytes, U64_MAX)
      requires nonJournalBytes == Max(counter - inTree, 0)
      requires config.Auto? ==> pendingReclaim == Min(pending + bytes, U64_MAX)
      modifies this`nonJournalBytes, this`pendingReclaim
      ensures less == Max(deficit - (bytes + victim.Bytes()), 0) && more == Min(bytes + victim.Bytes(), U64_MAX)
      ensures less == Max(left - victim.Bytes(), 0)
      ensures nonJournalBytes == Max(counter - (inTree + victim.TreePart()), 0)
      ensures pendingReclaim == if config.Auto? then Min(pending + (bytes + victim.Bytes()), U64_MAX)
                                else old(pendingReclaim)
    {
      if victim.CountedInTree() {
        nonJournalBytes := SatSub(nonJournalBytes, victim.Bytes());
      }
      if config.Auto? {
        pendingReclaim := SatAdd(pendingReclaim, victim.Bytes());
      }
      less, more := SatSub(left, victim.Bytes()), SatAdd(freed, victim.Bytes());
    }

    /** The deletion loop. It takes the shortest prefix of the plan that covers the
        deficit, unless a removal fails first. */
    method RemoveVictims(plan: seq<Victim>, deficit: u64, failure: Option<Failure>)
      returns (left: u64, freed: u64, aborted: bool, deleted: nat)
      modifies this`nonJournalBytes, this`pendingReclaim
      ensures deleted <= |plan|
      ensures left == Max(deficit - Freed(plan[..deleted]), 0)
      ensures freed == Min(Freed(plan[..deleted]), U64_MAX)
      ensures aborted <==> deleted < Cover(plan, deficit)
      ensures !aborted ==> deleted == Cover(plan, deficit)
      ensures aborted <==> failure.Some? && failure.value.at < Cover(plan, deficit)
      ensures aborted ==> deleted == failure.value.at
      ensures nonJournalBytes == Max(old(nonJournalBytes) - TreeFreed(plan[..deleted]), 0)
      ensures pendingReclaim == (if config.Auto? then Min(old(pendingReclaim) + Freed(plan[..deleted]), U64_MAX)
                                 else old(pendingReclaim))
    {
      left, freed, aborted, deleted := deficit, 0, false, 0;
      ghost var bytes, inTree := 0, 0;
      CoverIsShortest(plan, deficit);
      while deleted < |plan| && left > 0
        invariant deleted <= |plan| && !aborted
        invariant bytes == Freed(plan[..deleted]) && inTree == TreeFreed(plan[..deleted])
        invariant CoverFrom(plan, deleted, left) == Cover(plan, deficit)
        invariant failure.Some? ==> failure.value.at >= deleted
        invariant left == Max(deficit - bytes, 0) && freed == Min(bytes, U64_MAX)
        invariant nonJournalBytes == Max(old(nonJournalBytes) - inTree, 0)
        invariant pendingReclaim == if config.Auto? then Min(old(pendingReclaim) + bytes, U64_MAX)
                                    else old(pendingReclaim)
      {
        var victim := plan[deleted];
        CoverStep(plan, deleted, left);
        if failure.Some? && failure.value.at == deleted {
          aborted := true;
          return;
        }
        left, freed := Account(victim, left, freed, deficit, bytes, old(nonJournalBytes), inTree, old(pendingReclaim));
        Extend(plan, deleted);
        bytes, inTree := bytes + victim.Bytes(), inTree + victim.TreePart();
        deleted := deleted + 1;
      }
    }

    function Watching(): Watch
      reads this
    {
      Watch(pendingReclaim, lastObservedUsed)
    }

    /** `target`: the size to compare and its threshold; nothing when the partition
        cannot be read. */
    method Target(journalBytes: u64, quarantineBytes: u64, usage: Option<Usage>) returns (r: Option<(u64, u64)>)
      modifies this`pendingReclaim, this`lastObservedUsed
      ensures config.Fixed? ==>
        r == Some((SatAdd(SatAdd(nonJournalBytes, journalBytes), quarantineBytes), config.budget))
      ensures config.Fixed? ==> Watching() == old(Watching())
      ensures config.Auto? ==> Watching() == old(Observe(Watching(), usage)) && (r.Some? <==> usage.Some?)
      ensures config.Auto? && usage.Some? ==>
        && (r.value.0 <= r.value.1 <==> WithinTarget(Watching(), usage.value, config.percent, 0))
        && IsDeficit(Watching(), usage.value, config.percent, SatSub(r.value.0, r.value.1))
    {
      if config.Fixed? {
        return Some((SatAdd(SatAdd(nonJournalBytes, journalBytes), quarantineBytes), config.budget));
      }
      if usage.None? {
        return None;
      }
      pendingReclaim := Reconciled(pendingReclaim, lastObservedUsed, usage.value.used);
      lastObservedUsed := Some(usage.value.used);
      DeficitIsLeast(Watching(), usage.value, config.percent);
      r := Some((SatSub(usage.value.used, pendingReclaim), ThresholdBytes(usage.value.total, config.percent)));
    }

    function RecountDue(now: nat): bool
      reads this
    {
      config.Fixed? && Max(now - lastRecount, 0) >= RECOUNT_PERIOD
    }

    ghost predicate ScanDue(disk: Disk, i: Inputs)
      reads this
    {
      MustScan(config, Reading(), lastRecount, disk, i)
    }

    function Reading(): Meters
      reads this
    {
      Meters(nonJournalBytes, Watch(pendingReclaim, lastObservedUsed))
    }

    method LogDegradation(now: nat)
      modifies this`lastDegradation
      ensures lastDegradation == Degraded(old(lastDegradation), now, true)
    {
      if lastDegradation.Some? && Max(now - lastDegradation.value, 0) < TICK {
        return;
      }
      lastDegradation := Some(now);
    }

    /** Up to the deletions: the first comparison, and the scan with the recount
        when the size is over its threshold or the recount is due. */
    method Weigh(disk: Disk, i: Inputs) returns (scanned: bool, readings: nat, deficit: u64)
      modifies this
      ensures lastTick == old(lastTick) && lastDegradation == old(lastDegradation)
      ensures !scanned ==> deficit == 0 && nonJournalBytes == old(nonJournalBytes)
      ensures scanned ==> nonJournalBytes == CountableBytes(disk)
      ensures lastRecount == if scanned then i.now else old(lastRecount)
      ensures config.Fixed? ==> Watching() == old(Watching())
      ensures scanned <==> old(ScanDue(disk, i))
      ensures readings == if !i.quarantineScans then 0 else if scanned then 2 else 1
      ensures config.Fixed? && scanned ==> deficit == SatSub(ClippedSize(CountableBytes(disk), i, disk), config.budget)
      ensures config.Auto? ==> Watching() == Watched(old(Watching()), i, readings)
      ensures config.Auto? && scanned && i.second.Some? ==>
        IsDeficit(Watching(), i.second.value, config.percent, deficit)
      ensures config.Auto? && i.second.None? ==> deficit == 0
    {
      EvidenceFold(0, disk.evidence);
      scanned, readings, deficit := false, 0, 0;
      if !i.quarantineScans {
        return;
      }
      var quarantineBytes := FoldEvidence(0, disk.evidence);
      var recountDue := RecountDue(i.now);
      var first := Target(i.journalBytes, quarantineBytes, i.first);
      readings := 1;
      if first.None? || (first.value.0 <= first.value.1 && !recountDue) || !i.treeScans {
        return;
      }
      scanned := true;
      nonJournalBytes := CountableBytes(disk);
      lastRecount := i.now;
      var second := Target(i.journalBytes, quarantineBytes, i.second);
      readings := 2;
      if second.Some? {
        deficit := SatSub(second.value.0, second.value.1);
      }
    }

    /** One enforcement pass. */
    method Enforce(disk: Disk, i: Inputs) returns (pass: Pass)
      modifies this
      ensures lastTick == old(lastTick)
      ensures PassReaches(disk, i.failure, pass)
      ensures Passed(config, old(Reading()), Reading(), old(ScanDue(disk, i)), disk, i, pass)
      ensures lastRecount == if pass.scanned then i.now else old(lastRecount)
      ensures pass.readings == if !i.quarantineScans then 0 else if pass.scanned then 2 else 1
      ensures lastDegradation == Degraded(old(lastDegradation), i.now,
                                          !pass.aborted && Freed(Plan(disk)[..pass.deleted]) < pass.deficit)
    {
      var scanned, readings, deficit := Weigh(disk, i);
      pass := Pass(scanned, readings, deficit, 0, false);
      if deficit == 0 {
        return;
      }
      var plan := PlanVictims(disk);
      var left, freed, aborted, deleted := RemoveVictims(plan, deficit, i.failure);
      pass := Pass(scanned, readings, deficit, deleted, aborted);
      if left > 0 && !aborted {
        LogDegradation(i.now);
      }
    }

    /** Enforces after a publication or when the tick came due. */
    method MaybeEnforce(disk: Disk, i: Inputs, published: bool) returns (ran: bool, pass: Pass)
      modifies this
      ensures ran <==> published || i.now >= old(lastTick) + 60 * SECOND
      ensures lastTick == if i.now >= old(lastTick) + 60 * SECOND then i.now else old(lastTick)
      ensures lastRecount == if pass.scanned then i.now else old(lastRecount)
      ensures pass.readings == if !ran || !i.quarantineScans then 0 else if pass.scanned then 2 else 1
      ensures PassReaches(disk, i.failure, pass)
      ensures Passed(config, old(Reading()), Reading(), ran && old(ScanDue(disk, i)), disk, i, pass)
    {
      var tickDue := TimeUntilTick(i.now) == 0;
      ran, pass := published || tickDue, Pass(false, 0, 0, 0, false);
      if ran {
        if tickDue {
          lastTick := i.now;
        }
        pass := Enforce(disk, i);
      }
    }
  }
}
