/** Runs of rotation: publications, files and bytes that change on their own, and
    enforcement passes that may fail. */
module Stores {
  import opened Machine
  import opened Retention
  import opened Rotations

  // ---- What is retained ----

  /** The sealed segments of the tree are the newest published ones, at least one. */
  ghost predicate Retained(segments: seq<SegmentFiles>, published: seq<int>) {
    && |segments| <= |published|
    && (published != [] ==> segments != [])
    && forall j :: 0 <= j < |segments| ==> segments[j].id == published[|published| - |segments| + j]
  }

  lemma SuffixRetained(segments: seq<SegmentFiles>, published: seq<int>, gone: nat)
    requires Retained(segments, published) && gone <= |segments| && (segments != [] ==> gone < |segments|)
    ensures Retained(segments[gone..], published)
  {
  }

  lemma CompletePassRetains(disk: Disk, k: nat, published: seq<int>)
    requires k <= |Plan(disk)| && Retained(disk.segments, published)
    ensures Retained(After(disk, k).segments, published)
  {
    var gone := NewestStay(disk, k);
    SuffixRetained(disk.segments, published, gone);
  }

  /** A failing removal leaves the segments as they are or takes the plan's next. */
  lemma DamagedSegments(disk: Disk, damage: Damage)
    ensures Damaged(disk, damage).segments == disk.segments
         || Damaged(disk, damage).segments == WithoutFirst(disk).segments
  {
  }

  lemma AbortedPassRetains(disk: Disk, k: nat, damage: Damage, published: seq<int>)
    requires k < |Plan(disk)| && Retained(disk.segments, published)
    ensures Retained(Damaged(After(disk, k), damage).segments, published)
  {
    CompletePassRetains(disk, k, published);
    CompletePassRetains(disk, k + 1, published);
    assert After(disk, k + 1) == WithoutFirst(After(disk, k));
    DamagedSegments(After(disk, k), damage);
  }

  /** Every pass, also one that a failing removal ends, keeps a newest suffix. */
  lemma PassRetains(disk: Disk, failure: Option<Failure>, pass: Pass, published: seq<int>)
    requires PassReaches(disk, failure, pass) && Retained(disk.segments, published)
    ensures Retained(LeftOver(disk, failure, pass).segments, published)
  {
    CoverIsShortest(Plan(disk), pass.deficit);
    if pass.aborted {
      AbortedPassRetains(disk, pass.deleted, failure.value.damage, published);
    } else {
      CompletePassRetains(disk, pass.deleted, published);
    }
  }

  // ---- The counter ----

  /** Counted bytes that a failing removal took from the tree. */
  function TreeLost(v: Victim, damage: Damage): u64 {
    if damage == Untouched || (damage == PgmOnly && !v.OldSegment?) then 0 else v.TreePart()
  }

  function LostFromTree(disk: Disk, failure: Option<Failure>, pass: Pass): nat {
    if pass.aborted && failure.Some? && pass.deleted < |Plan(disk)|
    then TreeLost(Plan(disk)[pass.deleted], failure.value.damage) else 0
  }

  lemma DamagedBytes(disk: Disk, damage: Damage)
    requires Plan(disk) != []
    ensures TreeBytes(Damaged(disk, damage)) + TreeLost(Plan(disk)[0], damage) == TreeBytes(disk)
  {
    StepAlongPlan(disk);
  }

  /** The bytes of a pass: what it deleted, what a failing removal took, the rest. */
  lemma PassBytes(disk: Disk, failure: Option<Failure>, pass: Pass)
    requires PassReaches(disk, failure, pass)
    ensures TreeBytes(LeftOver(disk, failure, pass)) + LostFromTree(disk, failure, pass)
      + TreeFreed(Plan(disk)[..pass.deleted]) == TreeBytes(disk)
  {
    CoverIsShortest(Plan(disk), pass.deficit);
    AlongPlan(disk, pass.deleted);
    if pass.aborted {
      PlanLeft(disk, pass.deleted);
      DamagedBytes(After(disk, pass.deleted), failure.value.damage);
    }
  }

  /** A pass that scanned leaves the counter at a recount of what is left and of what
      a failing removal unlinked, exactly when the true sum fits the counter or the
      pass deleted none or all of the counted bytes. It is the true size exactly when
      the sum fits or all of it was deleted. */
  lemma PassCounts(disk: Disk, failure: Option<Failure>, pass: Pass, counter: u64)
    requires PassReaches(disk, failure, pass)
    requires counter == Max(CountableBytes(disk) - TreeFreed(Plan(disk)[..pass.deleted]), 0)
    ensures var freed := TreeFreed(Plan(disk)[..pass.deleted]);
      var left, lost := LeftOver(disk, failure, pass), LostFromTree(disk, failure, pass);
      && (counter == Min(TreeBytes(left) + lost, U64_MAX) <==>
            (TreeBytes(disk) <= U64_MAX || freed == 0 || freed == TreeBytes(disk)))
      && (counter == TreeBytes(left) + lost <==> (TreeBytes(disk) <= U64_MAX || freed == TreeBytes(disk)))
      && (lost == 0 ==> CountableBytes(left) == Min(TreeBytes(left) + lost, U64_MAX))
  {
    CountableIsClippedSum(disk);
    CountableIsClippedSum(LeftOver(disk, failure, pass));
    PassBytes(disk, failure, pass);
  }

  /** A pass over two segments deletes at most the older one. */
  lemma OlderGoes(older: SegmentFiles, newer: SegmentFiles, deficit: nat)
    requires deficit > 0
    ensures var disk := Disk([older, newer], [], [], []);
      && Plan(disk) == [OldSegment(older)]
      && PassReaches(disk, None, Pass(true, 0, deficit, 1, false))
      && PassReaches(disk, None, Pass(true, 2, deficit, 1, false))
      && After(disk, 1) == Disk([newer], [], [], [])
      && TreeFreed(Plan(disk)[..1]) == older.Bytes()
  {
    var disk := Disk([older, newer], [], [], []);
    assert disk.segments[1..] == [newer];
    assert SegmentVictims([newer]) == [];
    SegmentStep(disk);
    assert After(disk, 1) == WithoutFirst(After(disk, 0));
    assert Plan(WithoutFirst(disk)) == [];
    assert Cover(Plan(disk), deficit) == 1 + Cover(Plan(disk)[1..], Max(deficit - older.Bytes(), 0));
    assert Plan(disk)[..1][..0] == [];
  }

  /** So a recount is missed when some of more than fits the counter is deleted: the
      first of two segments goes, and the other one alone fills the counter. */
  lemma RecountIsMissed()
    ensures var disk := Disk([SegmentFiles(1, 10, None), SegmentFiles(2, U64_MAX, None)], [], [], []);
      var pass := Pass(true, 0, 5, 1, false);
      && PassReaches(disk, None, pass)
      && Max(CountableBytes(disk) - TreeFreed(Plan(disk)[..1]), 0) == U64_MAX - 10
      && CountableBytes(LeftOver(disk, None, pass)) == U64_MAX
  {
    var older, newer := SegmentFiles(1, 10, None), SegmentFiles(2, U64_MAX, None);
    OlderGoes(older, newer, 5);
    CountableIsClippedSum(Disk([older, newer], [], [], []));
    CountableIsClippedSum(Disk([newer], [], [], []));
    assert [older, newer][1..] == [newer] && [newer][1..] == [];
  }

  // ---- Files that readers still hold ----

  /** Pending reclaim, with everything that left the partition for other reasons
      and everything that never became pending, covers the bytes still held and
      the drop not observed yet. */
  ghost predicate Covered(w: Watch, used: u64, held: nat, shrunk: nat, lost: nat) {
    w.pending + shrunk + lost >= held + ObservedDrop(w.last, used)
  }

  /** The partition grows, other files shrink it, and readers release held ones. */
  datatype Move = Move(grow: nat, shrink: nat, release: nat)

  function Moved(used: u64, m: Move): int {
    used + m.grow - m.shrink - m.release
  }

  predicate Possible(used: u64, held: nat, m: Move) {
    m.release <= held && 0 <= Moved(used, m) <= U64_MAX
  }

  lemma MoveKeepsCovered(w: Watch, used: u64, held: nat, shrunk: nat, lost: nat, m: Move)
    requires Covered(w, used, held, shrunk, lost) && Possible(used, held, m)
    ensures Covered(w, Moved(used, m), held - m.release, shrunk + m.shrink, lost)
  {
  }

  lemma ReadingKeepsCovered(w: Watch, usage: Usage, held: nat, shrunk: nat, lost: nat)
    requires Covered(w, usage.used, held, shrunk, lost)
    ensures Covered(Observe(w, Some(usage)), usage.used, held, shrunk, lost)
  {
  }

  /** Bytes that a pass freed without adding them to the pending figure. */
  function Unaccounted(pending: u64, freed: nat): nat {
    Max(pending + freed - U64_MAX, 0)
  }

  function LostBytes(disk: Disk, failure: Option<Failure>, pass: Pass): nat {
    if pass.aborted && failure.Some? && pass.deleted < |Plan(disk)|
    then Lost(Plan(disk)[pass.deleted], failure.value.damage) else 0
  }

  /** The figure that is compared exceeds the settled usage by at most what left
      the partition for other reasons or never became pending. */
  lemma EffectiveUsageIsSettled(w: Watch, used: u64, held: nat, shrunk: nat, lost: nat)
    requires Covered(w, used, held, shrunk, lost) && w.last == Some(used)
    ensures SatSub(used, w.pending) <= Max(used - held + shrunk + lost, 0)
    ensures shrunk == 0 && lost == 0 ==> SatSub(used, w.pending) <= Max(used - held, 0)
  {
  }

  /** Nothing has been lost or credited wrongly: the pending figure is what readers
      hold, as of the last reading. */
  ghost predicate Accounted(w: Watch, used: u64, held: nat) {
    w.pending == held <= used && w.last == Some(used)
  }

  /** From there the next reading `u` compares more than the settled usage exactly
      when other files shrank by more than the partition grew, readers still hold
      something, and some usage is left to compare. */
  lemma ForeignDeletionRaisesUsage(w: Watch, used: u64, held: nat, m: Move)
    requires Accounted(w, used, held) && Possible(used, held, m)
    ensures var u := Moved(used, m);
      var pending := Reconciled(w.pending, w.last, u);
      SatSub(u, pending) > Max(u - (held - m.release), 0) <==> (m.shrink > m.grow && m.release < held && u > pending)
  {
  }

  /** So rotation deletes although the settled usage is not above the threshold:
      five bytes vanish elsewhere while ten are held, and a segment goes. */
  lemma ForeignDeletionDeletes()
    ensures var w, m := Watch(10, Some(100)), Move(0, 5, 0);
      var after := Observe(w, Some(Usage(100, 95)));
      var disk := Disk([SegmentFiles(1, 5, None), SegmentFiles(2, 5, None)], [], [], []);
      && Accounted(w, 100, 10) && Possible(100, 10, m) && Moved(100, m) == 95
      && AutoDeficit(after, Usage(100, 95), 85) == 5
      && PassReaches(disk, None, Pass(true, 2, 5, 1, false))
      && LeftOver(disk, None, Pass(true, 2, 5, 1, false)).segments == [SegmentFiles(2, 5, None)]
      && 95 - 10 <= ThresholdBytes(100, 85)
  {
    OlderGoes(SegmentFiles(1, 5, None), SegmentFiles(2, 5, None), 5);
  }

  /** Before each single deletion the settled usage, with the same allowance, is
      above the threshold by more than what the pass has already deleted. */
  lemma NothingExtraDeleted(disk: Disk, i: Inputs, pass: Pass, w: Watch, percent: nat,
                            held: nat, shrunk: nat, lost: nat)
    requires PassReaches(disk, i.failure, pass) && i.second.Some? && w.last == Some(i.second.value.used)
    requires Covered(w, i.second.value.used, held, shrunk, lost)
    requires IsDeficit(w, i.second.value, percent, pass.deficit)
    ensures forall j :: 0 <= j < pass.deleted ==>
      100 * (i.second.value.used - held + shrunk + lost - Freed(Plan(disk)[..j])) > i.second.value.total * percent
  {
    CoverIsShortest(Plan(disk), pass.deficit);
    forall j | 0 <= j < pass.deleted
      ensures Freed(Plan(disk)[..j]) < pass.deficit
    {
    }
  }

  /** A reading that is wrong in the other direction: from an accounted state the
      next one compares less than the settled usage exactly when the partition grew
      by more than other files shrank while readers released something. */
  lemma GrowthHidesRelease(w: Watch, used: u64, held: nat, m: Move)
    requires Accounted(w, used, held) && Possible(used, held, m)
    ensures Reconciled(w.pending, w.last, Moved(used, m)) > held - m.release <==> (m.grow > m.shrink && m.release > 0)
  {
  }

  /** Without either, a reading keeps the account: pending is what is still held. */
  lemma ReadingKeepsAccount(w: Watch, used: u64, held: nat, m: Move, u: Usage)
    requires Accounted(w, used, held) && Possible(used, held, m) && u.used == Moved(used, m)
    requires m.grow == m.shrink
    ensures Accounted(Observe(w, Some(u)), u.used, held - m.release)
  {
  }

  /** Pending reclaim exceeds the bytes still held by at most what the partition
      has grown by, for growth can hide a release from the readings. */
  ghost predicate NotOvercounted(w: Watch, used: u64, held: nat, grown: nat) {
    if w.last.None? then w.pending == 0 else w.pending - (w.last.value - used) <= held + grown
  }

  lemma MoveKeepsUndercount(w: Watch, used: u64, held: nat, grown: nat, m: Move)
    requires NotOvercounted(w, used, held, grown) && Possible(used, held, m)
    ensures NotOvercounted(w, Moved(used, m), held - m.release, grown + m.grow)
  {
  }

  lemma ReadingKeepsUndercount(w: Watch, usage: Usage, held: nat, grown: nat)
    requires NotOvercounted(w, usage.used, held, grown)
    ensures NotOvercounted(Observe(w, Some(usage)), usage.used, held, grown)
  {
  }

  /** When the state is accounted for at the last reading, a pass keeps held bytes
      covered without any allowance exactly when a failing removal unlinked nothing
      and the pending figure did not saturate. */
  lemma CoveredWithoutAllowance(config: RetentionConfig, before: Meters, after: Meters, scanDue: bool, disk: Disk,
                                i: Inputs, pass: Pass, used: u64, held: nat)
    requires config.Auto? && PassReaches(disk, i.failure, pass)
    requires Passed(config, before, after, scanDue, disk, i, pass)
    requires Accounted(Watched(before.watch, i, pass.readings), used, held)
    ensures var freed, lost := Freed(Plan(disk)[..pass.deleted]), LostBytes(disk, i.failure, pass);
      Covered(after.watch, used, held + freed + lost, 0, 0) <==> (lost == 0 && Unaccounted(held, freed) == 0)
  {
  }

  /** A removal that unlinks the PGM and then fails: ten bytes are held and none is
      pending. */
  lemma FailedRemovalEscapesPending()
    ensures var disk := Disk([SegmentFiles(1, 10, None), SegmentFiles(2, 10, None)], [], [], []);
      var failure, pass := Some(Failure(0, PgmOnly)), Pass(true, 2, 5, 0, true);
      PassReaches(disk, failure, pass) && LostBytes(disk, failure, pass) == 10
      && !Covered(Watch(0, Some(20)), 20, LostBytes(disk, failure, pass), 0, 0)
  {
    var disk := Disk([SegmentFiles(1, 10, None), SegmentFiles(2, 10, None)], [], [], []);
    SegmentStep(disk);
    assert Cover(Plan(disk), 5) == 1;
  }

  // ---- Fixed mode ----

  lemma ExactSize(counter: u64, i: Inputs, disk: Disk)
    requires counter == TreeBytes(disk)
    ensures ClippedSize(counter, i, disk) == Min(FixedSize(disk, i.journalBytes), U64_MAX)
  {
    EvidenceFold(0, disk.evidence);
  }

  /** Without interference one pass does exactly what `FixedPass` says; by
      `FixedModeConverges`, repeated passes then settle. */
  lemma PassIsFixedPass(config: RetentionConfig, before: Meters, after: Meters, lastRecount: nat,
                        disk: Disk, i: Inputs, pass: Pass)
    requires config.Fixed? && PassReaches(disk, i.failure, pass) && Undisturbed(i)
    requires Passed(config, before, after, MustScan(config, before, lastRecount, disk, i), disk, i, pass)
    requires before.nonJournalBytes == TreeBytes(disk) && FixedSize(disk, i.journalBytes) <= U64_MAX
    ensures LeftOver(disk, i.failure, pass) == FixedPass(disk, i.journalBytes, config.budget)
  {
    CountableIsClippedSum(disk);
    ExactSize(before.nonJournalBytes, i, disk);
  }

  // ---- Runs ----

  datatype Event =
    | Publication(s: SegmentFiles, recorded: bool)
    | Outside(next: Disk)
    | Shift(m: Move)
    | Wake(i: Inputs, between: Move, published: bool)

  function Ids(segments: seq<SegmentFiles>): seq<int> {
    seq(|segments|, j requires 0 <= j < |segments| => segments[j].id)
  }

  predicate Newer(disk: Disk, s: SegmentFiles) {
    s.ovf == None && (disk.segments != [] ==> disk.segments[|disk.segments| - 1].id < s.id)
  }

  /** The readings of a pass are those of the partition, which may move between them. */
  predicate Reads(used: u64, held: nat, i: Inputs, between: Move) {
    && Possible(used, held, between)
    && (i.first.Some? ==> i.first.value.used == used)
    && (i.second.Some? ==> i.second.value.used == Moved(used, between))
  }

  lemma SegmentAppended(disk: Disk, s: SegmentFiles, published: seq<int>)
    requires Retained(disk.segments, published)
    ensures Retained(disk.segments + [s], published + [s.id])
    ensures TreeBytes(disk.(segments := disk.segments + [s])) == TreeBytes(disk) + s.Bytes()
  {
    SegmentBytesGrow(disk.segments, s);
  }

  lemma {:induction false} SegmentBytesGrow(segments: seq<SegmentFiles>, s: SegmentFiles)
    ensures SegmentBytes(segments + [s]) == SegmentBytes(segments) + s.Bytes()
  {
    if segments == [] {
      assert segments + [s] == [s];
    } else {
      assert (segments + [s])[1..] == segments[1..] + [s];
      SegmentBytesGrow(segments[1..], s);
    }
  }

  lemma SameIdsRetained(a: seq<SegmentFiles>, b: seq<SegmentFiles>, published: seq<int>)
    requires Retained(a, published) && Ids(a) == Ids(b)
    ensures Retained(b, published)
  {
    assert |Ids(a)| == |a| && |Ids(b)| == |b|;
    forall j | 0 <= j < |b|
      ensures b[j].id == a[j].id
    {
      assert Ids(a)[j] == Ids(b)[j];
    }
  }

  /** The readings of a pass, and the move between them, keep the coverage. */
  lemma WatchedIsCovered(w: Watch, i: Inputs, readings: nat, between: Move, used: u64,
                         held: nat, shrunk: nat, lost: nat)
    requires Covered(w, used, held, shrunk, lost) && Reads(used, held, i, between)
    ensures Covered(Watched(w, i, readings), Moved(used, between),
                    held - between.release, shrunk + between.shrink, lost)
  {
    var first := if readings == 0 || i.first.None? then w else Observe(w, i.first);
    if readings > 0 && i.first.Some? {
      ReadingKeepsCovered(w, i.first.value, held, shrunk, lost);
    }
    MoveKeepsCovered(first, used, held, shrunk, lost, between);
    if readings > 1 && i.second.Some? {
      ReadingKeepsCovered(first, i.second.value, held - between.release, shrunk + between.shrink, lost);
    }
  }

  // ---- The state of a run ----

  /** What the run has done to the tree and the partition besides the counters.
      `unseen`: counted bytes that appeared or vanished without the counter since
      the last scan; `exact`: the true sum has fitted the counter since then.
      `held`: bytes unlinked and still held; `shrunk`: bytes that left the
      partition for other reasons; `lost`: bytes unlinked that never became
      pending; `grown`: bytes that the partition grew by. */
  datatype Tally = Tally(unseen: int, exact: bool, held: nat, shrunk: nat, lost: nat, grown: nat)

  ghost predicate Sound(config: RetentionConfig, m: Meters, disk: Disk, used: u64, published: seq<int>, t: Tally) {
    && Retained(disk.segments, published)
    && (t.exact ==> m.nonJournalBytes + t.unseen == TreeBytes(disk))
    && (config.Auto? ==> Covered(m.watch, used, t.held, t.shrunk, t.lost))
    && (config.Auto? ==> NotOvercounted(m.watch, used, t.held, t.grown))
  }

  /** A move of the partition, then a pass. */
  function Tallied(config: RetentionConfig, before: Meters, disk: Disk, i: Inputs, between: Move, pass: Pass,
                   t: Tally): Tally
    requires pass.deleted <= |Plan(disk)| && between.release <= t.held
  {
    var freed, lost := Freed(Plan(disk)[..pass.deleted]), LostBytes(disk, i.failure, pass);
    var gone: int := LostFromTree(disk, i.failure, pass);
    var unaccounted := if config.Fixed? then 0 else Unaccounted(Watched(before.watch, i, pass.readings).pending, freed);
    Tally(
      if pass.scanned then -gone else t.unseen,
      if pass.scanned then TreeBytes(disk) <= U64_MAX else t.exact,
      t.held - between.release + freed + lost,
      t.shrunk + between.shrink,
      t.lost + lost + unaccounted,
      t.grown + between.grow)
  }

  lemma IdlePass(disk: Disk, failure: Option<Failure>, pass: Pass)
    requires PassReaches(disk, failure, pass) && pass.deficit == 0
    ensures LeftOver(disk, failure, pass) == disk && pass.deleted == 0 && !pass.aborted
  {
  }

  lemma PassKeepsCounter(config: RetentionConfig, before: Meters, after: Meters, scanDue: bool, disk: Disk,
                         i: Inputs, pass: Pass, unseen: int)
    requires PassReaches(disk, i.failure, pass) && Passed(config, before, after, scanDue, disk, i, pass)
    ensures pass.scanned && TreeBytes(disk) <= U64_MAX ==>
      after.nonJournalBytes - LostFromTree(disk, i.failure, pass) == TreeBytes(LeftOver(disk, i.failure, pass))
    ensures !pass.scanned ==> after.nonJournalBytes == before.nonJournalBytes && LeftOver(disk, i.failure, pass) == disk
  {
    if !pass.scanned {
      IdlePass(disk, i.failure, pass);
    } else if TreeBytes(disk) <= U64_MAX {
      PassCounts(disk, i.failure, pass, after.nonJournalBytes);
    }
  }

  lemma PassKeepsCovered(config: RetentionConfig, before: Meters, after: Meters, scanDue: bool, disk: Disk,
                         i: Inputs, between: Move, pass: Pass, used: u64, t: Tally)
    requires config.Auto? && PassReaches(disk, i.failure, pass) && Passed(config, before, after, scanDue, disk, i, pass)
    requires Covered(before.watch, used, t.held, t.shrunk, t.lost) && Reads(used, t.held, i, between)
    ensures var next := Tallied(config, before, disk, i, between, pass, t);
      Covered(after.watch, Moved(used, between), next.held, next.shrunk, next.lost)
  {
    WatchedIsCovered(before.watch, i, pass.readings, between, used, t.held, t.shrunk, t.lost);
  }

  /** The readings of a pass, and the move between them, keep the other bound. */
  lemma WatchedIsBounded(w: Watch, i: Inputs, readings: nat, between: Move, used: u64, held: nat, grown: nat)
    requires NotOvercounted(w, used, held, grown) && Reads(used, held, i, between)
    ensures NotOvercounted(Watched(w, i, readings), Moved(used, between), held - between.release, grown + between.grow)
  {
    var first := if readings == 0 || i.first.None? then w else Observe(w, i.first);
    if readings > 0 && i.first.Some? {
      ReadingKeepsUndercount(w, i.first.value, held, grown);
    }
    MoveKeepsUndercount(first, used, held, grown, between);
    if readings > 1 && i.second.Some? {
      ReadingKeepsUndercount(first, i.second.value, held - between.release, grown + between.grow);
    }
  }

  lemma PassKeepsBound(config: RetentionConfig, before: Meters, after: Meters, scanDue: bool, disk: Disk,
                       i: Inputs, between: Move, pass: Pass, used: u64, t: Tally)
    requires config.Auto? && PassReaches(disk, i.failure, pass) && Passed(config, before, after, scanDue, disk, i, pass)
    requires NotOvercounted(before.watch, used, t.held, t.grown) && Reads(used, t.held, i, between)
    ensures var next := Tallied(config, before, disk, i, between, pass, t);
      NotOvercounted(after.watch, Moved(used, between), next.held, next.grown)
  {
    WatchedIsBounded(before.watch, i, pass.readings, between, used, t.held, t.grown);
  }

  /** Settled usage, less what the partition has grown by, reaches the target or
      nothing is left to delete. */
  ghost predicate AutoSettled(disk: Disk, used: int, t: Tally, total: u64, percent: nat) {
    Plan(disk) == [] || 100 * (used - t.held - t.grown) <= total * percent
  }

  /** One pass that nothing disturbs is enough in `auto` mode, because every file it
      deletes counts. */
  lemma AutoPassSettles(config: RetentionConfig, before: Meters, after: Meters, lastRecount: nat, disk: Disk,
                        i: Inputs, between: Move, pass: Pass, used: u64, t: Tally, total: u64)
    requires config.Auto? && PassReaches(disk, i.failure, pass) && Undisturbed(i)
    requires Passed(config, before, after, MustScan(config, before, lastRecount, disk, i), disk, i, pass)
    requires pass.readings == if pass.scanned then 2 else 1
    requires NotOvercounted(before.watch, used, t.held, t.grown) && Reads(used, t.held, i, between)
    requires i.first.Some? && i.second.Some? && i.first.value.total == total == i.second.value.total
    ensures AutoSettled(LeftOver(disk, i.failure, pass), Moved(used, between),
                        Tallied(config, before, disk, i, between, pass, t), total, config.percent)
  {
    ReadingKeepsUndercount(before.watch, i.first.value, t.held, t.grown);
    WatchedIsBounded(before.watch, i, pass.readings, between, used, t.held, t.grown);
    CoverIsShortest(Plan(disk), pass.deficit);
    PlanLeft(disk, pass.deleted);
  }

  lemma PassKeepsSound(config: RetentionConfig, before: Meters, after: Meters, scanDue: bool, disk: Disk,
                       i: Inputs, between: Move, pass: Pass, used: u64, published: seq<int>, t: Tally)
    requires PassReaches(disk, i.failure, pass) && Passed(config, before, after, scanDue, disk, i, pass)
    requires Sound(config, before, disk, used, published, t) && Reads(used, t.held, i, between)
    ensures Sound(config, after, LeftOver(disk, i.failure, pass), Moved(used, between), published,
                  Tallied(config, before, disk, i, between, pass, t))
  {
    PassRetains(disk, i.failure, pass, published);
    PassKeepsCounter(config, before, after, scanDue, disk, i, pass, t.unseen);
    if config.Auto? {
      PassKeepsCovered(config, before, after, scanDue, disk, i, between, pass, used, t);
      PassKeepsBound(config, before, after, scanDue, disk, i, between, pass, used, t);
    }
  }

  /** The settled usage at the second reading is above the threshold before every
      deletion, up to bytes that left for other reasons or never became pending. */
  ghost predicate OnlyAboveThreshold(config: RetentionConfig, disk: Disk, i: Inputs, between: Move, pass: Pass,
                                     used: u64, t: Tally)
    requires pass.deleted <= |Plan(disk)|
  {
    config.Auto? && pass.deleted > 0 ==>
      && i.second.Some?
      && forall j :: 0 <= j < pass.deleted ==>
        var settled := Moved(used, between) - (t.held - between.release) + (t.shrunk + between.shrink) + t.lost;
        100 * (settled - Freed(Plan(disk)[..j])) > i.second.value.total * config.percent
  }

  lemma PassDeletesOnlyAbove(config: RetentionConfig, before: Meters, after: Meters, scanDue: bool, disk: Disk,
                             i: Inputs, between: Move, pass: Pass, used: u64, t: Tally)
    requires PassReaches(disk, i.failure, pass) && Passed(config, before, after, scanDue, disk, i, pass)
    requires config.Auto? ==> Covered(before.watch, used, t.held, t.shrunk, t.lost)
    requires Reads(used, t.held, i, between)
    ensures OnlyAboveThreshold(config, disk, i, between, pass, used, t)
  {
    if config.Auto? && pass.deficit > 0 {
      WatchedIsCovered(before.watch, i, 2, between, used, t.held, t.shrunk, t.lost);
      NothingExtraDeleted(disk, i, pass, Watched(before.watch, i, 2), config.percent,
                          t.held - between.release, t.shrunk + between.shrink, t.lost);
    }
  }

  /** Both scans succeed and no removal fails. */
  predicate Undisturbed(i: Inputs) {
    i.quarantineScans && i.treeScans && i.failure.None?
  }

  /** Everything a run of rotation acts on. */
  datatype View = View(disk: Disk, used: u64, published: seq<int>, tally: Tally,
                       meters: Meters, lastTick: nat, lastRecount: nat)

  /** Rotation wakes: it runs after a publication or when a minute has passed since
      its last tick. */
  ghost predicate Woke(config: RetentionConfig, s: View, i: Inputs, between: Move, sealed: bool, pass: Pass, t: View)
    requires between.release <= s.tally.held
  {
    var tickDue := i.now >= s.lastTick + 60 * SECOND;
    var ran := sealed || tickDue;
    && PassReaches(s.disk, i.failure, pass)
    && Passed(config, s.meters, t.meters, ran && MustScan(config, s.meters, s.lastRecount, s.disk, i), s.disk, i, pass)
    && pass.readings == (if !ran || !i.quarantineScans then 0 else if pass.scanned then 2 else 1)
    && t.disk == LeftOver(s.disk, i.failure, pass) && t.used == Moved(s.used, between)
    && t.published == s.published && t.tally == Tallied(config, s.meters, s.disk, i, between, pass, s.tally)
    && t.lastTick == (if tickDue then i.now else s.lastTick)
    && t.lastRecount == (if pass.scanned then i.now else s.lastRecount)
  }

  predicate CanHappen(s: View, e: Event) {
    match e
    case Publication(g, _) => Newer(s.disk, g)
    case Outside(next) => Ids(next.segments) == Ids(s.disk.segments)
    case Shift(m) => Possible(s.used, s.tally.held, m)
    case Wake(i, between, _) => Reads(s.used, s.tally.held, i, between)
  }

  /** The counter after a publication whose size is recorded. */
  function Recorded(m: Meters, bytes: u64): Meters {
    m.(nonJournalBytes := Min(m.nonJournalBytes + bytes, U64_MAX))
  }

  /** In `fixed` mode such a pass does what the repeated-pass theorem speaks about. */
  ghost predicate DidFixedPass(config: RetentionConfig, s: View, i: Inputs, sealed: bool, t: View) {
    config.Fixed? && sealed && Undisturbed(i) && Exact(s.disk, i.journalBytes, s.tally) ==>
      t.disk == FixedPass(s.disk, i.journalBytes, config.budget) && t.tally.unseen == 0 && t.tally.exact
  }

  /** In `auto` mode it settles. */
  ghost predicate DidAutoPass(config: RetentionConfig, s: View, i: Inputs, sealed: bool, t: View) {
    && config.Auto? && (sealed || i.now >= s.lastTick + 60 * SECOND) && Undisturbed(i)
    && i.first.Some? && i.second.Some? && i.first.value.total == i.second.value.total ==>
      AutoSettled(t.disk, t.used, t.tally, i.first.value.total, config.percent)
  }

  ghost predicate SoundView(config: RetentionConfig, s: View) {
    Sound(config, s.meters, s.disk, s.used, s.published, s.tally)
  }

  lemma WokeKeepsSound(config: RetentionConfig, s: View, i: Inputs, between: Move, sealed: bool, pass: Pass, t: View)
    requires SoundView(config, s) && Reads(s.used, s.tally.held, i, between)
    requires Woke(config, s, i, between, sealed, pass, t)
    ensures SoundView(config, t)
    ensures OnlyAboveThreshold(config, s.disk, i, between, pass, s.used, s.tally)
  {
    var due := (sealed || i.now >= s.lastTick + 60 * SECOND) && MustScan(config, s.meters, s.lastRecount, s.disk, i);
    PassKeepsSound(config, s.meters, t.meters, due, s.disk, i, between, pass, s.used, s.published, s.tally);
    PassDeletesOnlyAbove(config, s.meters, t.meters, due, s.disk, i, between, pass, s.used, s.tally);
  }

  lemma WokeSettles(config: RetentionConfig, s: View, i: Inputs, between: Move, sealed: bool, pass: Pass, t: View)
    requires SoundView(config, s) && Reads(s.used, s.tally.held, i, between)
    requires Woke(config, s, i, between, sealed, pass, t)
    ensures DidFixedPass(config, s, i, sealed, t) && DidAutoPass(config, s, i, sealed, t)
  {
    if config.Fixed? && sealed && Undisturbed(i) && Exact(s.disk, i.journalBytes, s.tally) {
      PassIsFixedPass(config, s.meters, t.meters, s.lastRecount, s.disk, i, pass);
    }
    if config.Auto? && (sealed || i.now >= s.lastTick + 60 * SECOND) && Undisturbed(i)
      && i.first.Some? && i.second.Some? && i.first.value.total == i.second.value.total
    {
      AutoPassSettles(config, s.meters, t.meters, s.lastRecount, s.disk, i, between, pass, s.used, s.tally,
                      i.first.value.total);
    }
  }

  function NoPass(): Pass {
    Pass(false, 0, 0, 0, false)
  }

  /** What each event does. An event that cannot happen does nothing. */
  ghost predicate Happened(config: RetentionConfig, s: View, e: Event, pass: Pass, t: View) {
    && (e.Wake? || pass == Pass(false, 0, 0, 0, false))
    && if !CanHappen(s, e) then t == s && pass == Pass(false, 0, 0, 0, false)
    else
      match e
      case Publication(g, recorded) =>
        t == s.(disk := s.disk.(segments := s.disk.segments + [g]), published := s.published + [g.id],
                meters := if recorded then Recorded(s.meters, g.pgm) else s.meters,
                tally := s.tally.(unseen := s.tally.unseen + (if recorded then 0 else g.Bytes()),
                                  exact := s.tally.exact &&
                                           (recorded ==> s.meters.nonJournalBytes + g.pgm <= U64_MAX)))
      case Outside(next) =>
        t == s.(disk := next, tally := s.tally.(unseen := s.tally.unseen + TreeBytes(next) - TreeBytes(s.disk)))
      case Shift(m) =>
        t == s.(used := Moved(s.used, m),
                tally := s.tally.(held := s.tally.held - m.release, shrunk := s.tally.shrunk + m.shrink,
                                  grown := s.tally.grown + m.grow))
      case Wake(i, between, sealed) => Woke(config, s, i, between, sealed, pass, t)
  }

  /** The counter is the true size of the tree, and all sizes fit it. */
  predicate Exact(disk: Disk, journalBytes: nat, t: Tally) {
    t.exact && t.unseen == 0 && FixedSize(disk, journalBytes) <= U64_MAX
  }

  class Store {
    const rotation: Rotation
    var disk: Disk
    var used: u64

    /** Ids of the segments in the order of their publication. */
    var published: seq<int>
    var tally: Tally

    ghost predicate Valid()
      reads this, rotation
    {
      Sound(rotation.config, rotation.Reading(), disk, used, published, tally)
    }

    ghost function Now(): View
      reads this, rotation
    {
      View(disk, used, published, tally, rotation.Reading(), rotation.lastTick, rotation.lastRecount)
    }

    constructor (config: RetentionConfig, disk: Disk, used: u64, now: nat)
      ensures Valid() && fresh(rotation) && rotation.config == config
      ensures Now() == View(disk, used, Ids(disk.segments), Tally(0, TreeBytes(disk) <= U64_MAX, 0, 0, 0, 0),
                            Meters(Min(TreeBytes(disk), U64_MAX), Watch(0, None)), now, now)
    {
      rotation := new Rotation(config, disk, now);
      this.disk, this.used := disk, used;
      published, tally := Ids(disk.segments), Tally(0, TreeBytes(disk) <= U64_MAX, 0, 0, 0, 0);
    }

    /** The collector publishes a segment; its size is recorded unless the file
        cannot be examined. */
    method Publish(s: SegmentFiles, recorded: bool)
      requires Valid() && Newer(disk, s)
      modifies this, rotation
      ensures Valid() && Happened(rotation.config, old(Now()), Publication(s, recorded), NoPass(), Now())
    {
      SegmentAppended(disk, s, published);
      tally := tally.(
        unseen := tally.unseen + (if recorded then 0 else s.Bytes()),
        exact := tally.exact && (recorded ==> rotation.nonJournalBytes + s.pgm <= U64_MAX));
      disk := disk.(segments := disk.segments + [s]);
      published := published + [s.id];
      if recorded {
        rotation.RecordPublication(s.pgm);
      }
    }

    /** Sidecars, orphans, temporaries and evidence change beside the collector. */
    method ChangeOutside(next: Disk)
      requires Valid() && Ids(next.segments) == Ids(disk.segments)
      modifies this
      ensures Valid() && Happened(rotation.config, old(Now()), Outside(next), NoPass(), Now())
    {
      SameIdsRetained(disk.segments, next.segments, published);
      tally := tally.(unseen := tally.unseen + TreeBytes(next) - TreeBytes(disk));
      disk := next;
    }

    method ShiftUsage(m: Move)
      requires Valid() && Possible(used, tally.held, m)
      modifies this
      ensures Valid() && Happened(rotation.config, old(Now()), Shift(m), NoPass(), Now())
    {
      used := Moved(used, m);
      tally := tally.(held := tally.held - m.release, shrunk := tally.shrunk + m.shrink, grown := tally.grown + m.grow);
    }

    /** Rotation wakes. After a pass that scanned, the counter is a fresh recount of
        what is left, apart from what a failing removal unlinked; in `auto` mode
        every deletion finds the settled usage above the target, and a pass that
        nothing disturbs reaches it. */
    method Enforce(i: Inputs, between: Move, sealed: bool) returns (pass: Pass)
      requires Valid() && Reads(used, tally.held, i, between)
      modifies this, rotation
      ensures Valid() && Woke(rotation.config, old(Now()), i, between, sealed, pass, Now())
      ensures OnlyAboveThreshold(rotation.config, old(disk), i, between, pass, old(used), old(tally))
      ensures DidFixedPass(rotation.config, old(Now()), i, sealed, Now())
      ensures DidAutoPass(rotation.config, old(Now()), i, sealed, Now())
    {
      ghost var s := Now();
      var before := rotation.Reading();
      var ran;
      ran, pass := rotation.MaybeEnforce(disk, i, sealed);
      tally := Tallied(rotation.config, before, disk, i, between, pass, tally);
      disk, used := LeftOver(disk, i.failure, pass), Moved(used, between);
      WokeKeepsSound(rotation.config, s, i, between, sealed, pass, Now());
      WokeSettles(rotation.config, s, i, between, sealed, pass, Now());
    }

    method SettleOnce(i: Inputs)
      requires Valid() && rotation.config.Fixed? && Undisturbed(i) && Exact(disk, i.journalBytes, tally)
      modifies this, rotation
      ensures Valid() && Exact(disk, i.journalBytes, tally)
      ensures disk == FixedPass(old(disk), i.journalBytes, rotation.config.budget)
    {
      FixedPassShrinks(disk, i.journalBytes, rotation.config.budget);
      // A fixed budget takes no readings of the partition.
      var pass := Enforce(i.(first := None, second := None), Move(0, 0, 0), true);
    }

    /** Undisturbed passes of a fixed budget, one more than there are orphan
        overviews, end within the budget or with nothing left to delete. */
    method Settle(passes: seq<Inputs>, journalBytes: u64)
      requires Valid() && rotation.config.Fixed? && |passes| > |disk.orphans| && Exact(disk, journalBytes, tally)
      requires forall n :: 0 <= n < |passes| ==> Undisturbed(passes[n]) && passes[n].journalBytes == journalBytes
      modifies this, rotation
      ensures Valid() && Settled(disk, journalBytes, rotation.config.budget)
    {
      ghost var start, budget := disk, rotation.config.budget;
      for n := 0 to |passes|
        invariant Valid() && Exact(disk, journalBytes, tally)
        invariant disk == FixedPasses(start, journalBytes, budget, n)
      {
        SettleOnce(passes[n]);
      }
      FixedModeConverges(start, journalBytes, budget, |passes|);
    }

    /** One event of a run. */
    method Step(e: Event) returns (pass: Pass)
      requires Valid()
      modifies this, rotation
      ensures Valid() && Happened(rotation.config, old(Now()), e, pass, Now())
    {
      pass := NoPass();
      var now := View(disk, used, published, tally, rotation.Reading(), rotation.lastTick, rotation.lastRecount);
      if CanHappen(now, e) {
        match e
        case Publication(s, recorded) => Publish(s, recorded);
        case Outside(next) => ChangeOutside(next);
        case Shift(m) => ShiftUsage(m);
        case Wake(i, between, sealed) => pass := Enforce(i, between, sealed);
      }
    }

    /** Any run of publications with increasing ids, outside changes, moves of the
        partition, and passes, with the state before and after each of them. */
    method Run(events: seq<Event>) returns (passes: seq<Pass>, ghost trace: seq<View>)
      requires Valid()
      modifies this, rotation
      ensures Valid() && old(published) <= published
      ensures |passes| == |events| && |trace| == |events| + 1 && trace[0] == old(Now()) && trace[|events|] == Now()
      ensures forall n :: 0 <= n < |events| ==> Happened(rotation.config, trace[n], events[n], passes[n], trace[n + 1])
    {
      passes, trace := [], [Now()];
      for n := 0 to |events|
        invariant Valid() && old(published) <= published
        invariant |passes| == n && |trace| == n + 1 && trace[0] == old(Now()) && trace[n] == Now()
        invariant forall k :: 0 <= k < n ==> Happened(rotation.config, trace[k], events[k], passes[k], trace[k + 1])
      {
        var pass := Step(events[n]);
        passes, trace := passes + [pass], trace + [Now()];
      }
    }
  }

  /** Rotation that starts over a tree within the counter's range settles it. */
  method StartAndSettle(budget: u64, disk: Disk, used: u64, now: nat, passes: seq<Inputs>, journalBytes: u64)
    returns (c: Store)
    requires |passes| > |disk.orphans| && FixedSize(disk, journalBytes) <= U64_MAX
    requires forall n :: 0 <= n < |passes| ==> Undisturbed(passes[n]) && passes[n].journalBytes == journalBytes
    ensures fresh(c) && c.Valid() && Settled(c.disk, journalBytes, budget)
  {
    c := new Store(Fixed(budget), disk, used, now);
    c.Settle(passes, journalBytes);
  }

  /** What a run keeps: the sealed segments are the newest published ones, and some
      are left once any was published; the counter is the true size of the tree,
      apart from what changed beside it since the last scan; and bytes still held
      are covered by the pending figure, by what left the partition for other
      reasons, and by what never became pending. */
  lemma RunIsSound(c: Store)
    requires c.Valid()
    ensures c.published != [] ==> c.disk.segments != []
    ensures |c.disk.segments| <= |c.published|
    ensures Ids(c.disk.segments) == c.published[|c.published| - |c.disk.segments|..]
    ensures c.tally.exact ==> c.rotation.nonJournalBytes + c.tally.unseen == TreeBytes(c.disk)
    ensures c.rotation.config.Auto? ==> c.rotation.pendingReclaim + c.tally.shrunk + c.tally.lost >= c.tally.held
  {
  }
}
