/** The files that rotation weighs and deletes: their sizes, the order in which
    they go, and how far one deletion pass reaches. */
module Retention {
  import opened Machine

  // ---- The data tree ----

  /** A sealed segment and its overview sidecar. */
  datatype SegmentFiles = SegmentFiles(id: int, pgm: u64, ovf: Option<u64>) {
    function Bytes(): u64 {
      SatAdd(pgm, ovf.UnwrapOr(0))
    }
  }

  /** An overview without its segment; a scan does not report its size. */
  datatype Orphan = Orphan(id: int, bytes: u64)

  /** A writer temporary; only those of a PGM publication may be deleted. */
  datatype Temporary = Temporary(id: int, isPgm: bool, bytes: u64)

  /** A regular file in quarantine. */
  datatype Evidence = Evidence(id: int, bytes: u64)

  /** Segments oldest first, as a scan lists them; evidence oldest first, as
      rotation sorts it. */
  datatype Disk = Disk(
    segments: seq<SegmentFiles>, orphans: seq<Orphan>, temporaries: seq<Temporary>, evidence: seq<Evidence>)

  // ---- Sizes ----

  function SegmentBytes(segments: seq<SegmentFiles>): nat {
    if segments == [] then 0 else segments[0].Bytes() + SegmentBytes(segments[1..])
  }

  function TemporaryBytes(temporaries: seq<Temporary>): nat {
    if temporaries == [] then 0 else temporaries[0].bytes + TemporaryBytes(temporaries[1..])
  }

  function EvidenceBytes(evidence: seq<Evidence>): nat {
    if evidence == [] then 0 else evidence[0].bytes + EvidenceBytes(evidence[1..])
  }

  /** Bytes of every file with a size in the scan: no journal, no orphans. */
  function TreeBytes(disk: Disk): nat {
    SegmentBytes(disk.segments) + TemporaryBytes(disk.temporaries)
  }

  function FoldSegments(total: u64, segments: seq<SegmentFiles>): u64
    decreases |segments|
  {
    if segments == [] then total else FoldSegments(SatAdd(total, segments[0].Bytes()), segments[1..])
  }

  function FoldTemporaries(total: u64, temporaries: seq<Temporary>): u64
    decreases |temporaries|
  {
    if temporaries == [] then total else FoldTemporaries(SatAdd(total, temporaries[0].bytes), temporaries[1..])
  }

  function FoldEvidence(total: u64, evidence: seq<Evidence>): u64
    decreases |evidence|
  {
    if evidence == [] then total else FoldEvidence(SatAdd(total, evidence[0].bytes), evidence[1..])
  }

  /** `countable_bytes`: two saturating sums, added with saturation. */
  function CountableBytes(disk: Disk): u64 {
    SatAdd(FoldSegments(0, disk.segments), FoldTemporaries(0, disk.temporaries))
  }

  lemma {:induction false} SegmentFold(total: u64, segments: seq<SegmentFiles>)
    ensures FoldSegments(total, segments) == Min(total + SegmentBytes(segments), U64_MAX)
    decreases |segments|
  {
    if segments != [] {
      SegmentFold(SatAdd(total, segments[0].Bytes()), segments[1..]);
    }
  }

  lemma {:induction false} TemporaryFold(total: u64, temporaries: seq<Temporary>)
    ensures FoldTemporaries(total, temporaries) == Min(total + TemporaryBytes(temporaries), U64_MAX)
    decreases |temporaries|
  {
    if temporaries != [] {
      TemporaryFold(SatAdd(total, temporaries[0].bytes), temporaries[1..]);
    }
  }

  lemma {:induction false} EvidenceFold(total: u64, evidence: seq<Evidence>)
    ensures FoldEvidence(total, evidence) == Min(total + EvidenceBytes(evidence), U64_MAX)
    decreases |evidence|
  {
    if evidence != [] {
      EvidenceFold(SatAdd(total, evidence[0].bytes), evidence[1..]);
    }
  }

  /** The saturating folds compute the true sum clipped at the width of a `u64`. */
  lemma CountableIsClippedSum(disk: Disk)
    ensures CountableBytes(disk) == Min(TreeBytes(disk), U64_MAX)
  {
    SegmentFold(0, disk.segments);
    TemporaryFold(0, disk.temporaries);
  }

  // ---- The order of deletion ----

  datatype Victim =
    | StaleTemporary(t: Temporary)
    | OrphanOverview(o: Orphan)
    | Quarantined(e: Evidence)
    | OldSegment(s: SegmentFiles)
  {
    function Bytes(): u64 {
      match this
      case StaleTemporary(t) => t.bytes
      case OrphanOverview(o) => o.bytes
      case Quarantined(e) => e.bytes
      case OldSegment(s) => s.Bytes()
    }

    /** Whether the incremental counter contains the file. */
    predicate CountedInTree() {
      StaleTemporary? || OldSegment?
    }

    function TreePart(): u64 {
      if CountedInTree() then Bytes() else 0
    }
  }

  function StaleVictims(temporaries: seq<Temporary>): seq<Victim> {
    if temporaries == [] then []
    else StaleVictim(temporaries[0]) + StaleVictims(temporaries[1..])
  }

  function StaleVictim(t: Temporary): seq<Victim> {
    if t.isPgm then [StaleTemporary(t)] else []
  }

  function OrphanVictims(orphans: seq<Orphan>): seq<Victim> {
    if orphans == [] then [] else [OrphanOverview(orphans[0])] + OrphanVictims(orphans[1..])
  }

  function EvidenceVictims(evidence: seq<Evidence>): seq<Victim> {
    if evidence == [] then [] else [Quarantined(evidence[0])] + EvidenceVictims(evidence[1..])
  }

  /** All segments but the newest. */
  function SegmentVictims(segments: seq<SegmentFiles>): seq<Victim> {
    if |segments| <= 1 then [] else [OldSegment(segments[0])] + SegmentVictims(segments[1..])
  }

  function Plan(disk: Disk): seq<Victim> {
    StaleVictims(disk.temporaries) + OrphanVictims(disk.orphans)
    + EvidenceVictims(disk.evidence) + SegmentVictims(disk.segments)
  }

  lemma {:induction false} StaleGrow(temporaries: seq<Temporary>, t: Temporary)
    ensures StaleVictims(temporaries + [t]) == StaleVictims(temporaries) + StaleVictim(t)
  {
    var all := temporaries + [t];
    if temporaries == [] {
      assert all == [t] && all[1..] == [];
      assert StaleVictim(t) + [] == [] + StaleVictim(t);
    } else {
      assert all[0] == temporaries[0] && all[1..] == temporaries[1..] + [t];
      StaleGrow(temporaries[1..], t);
      assert StaleVictim(temporaries[0]) + (StaleVictims(temporaries[1..]) + StaleVictim(t))
        == (StaleVictim(temporaries[0]) + StaleVictims(temporaries[1..])) + StaleVictim(t);
    }
  }

  lemma {:induction false} OrphansGrow(orphans: seq<Orphan>, o: Orphan)
    ensures OrphanVictims(orphans + [o]) == OrphanVictims(orphans) + [OrphanOverview(o)]
  {
    if orphans == [] {
      assert orphans + [o] == [o];
    } else {
      assert (orphans + [o])[1..] == orphans[1..] + [o];
      OrphansGrow(orphans[1..], o);
    }
  }

  lemma {:induction false} EvidenceGrow(evidence: seq<Evidence>, e: Evidence)
    ensures EvidenceVictims(evidence + [e]) == EvidenceVictims(evidence) + [Quarantined(e)]
  {
    if evidence == [] {
      assert evidence + [e] == [e];
    } else {
      assert (evidence + [e])[1..] == evidence[1..] + [e];
      EvidenceGrow(evidence[1..], e);
    }
  }

  lemma {:induction false} SegmentsGrow(segments: seq<SegmentFiles>, s: SegmentFiles)
    requires segments != []
    ensures SegmentVictims(segments + [s]) == SegmentVictims(segments) + [OldSegment(segments[|segments| - 1])]
  {
    assert (segments + [s])[1..] == segments[1..] + [s];
    if |segments| == 1 {
      assert segments[1..] + [s] == [s];
    } else {
      SegmentsGrow(segments[1..], s);
    }
  }

  method PushStale(temporaries: seq<Temporary>, victims: seq<Victim>) returns (more: seq<Victim>)
    ensures more == victims + StaleVictims(temporaries)
  {
    more := victims;
    for i := 0 to |temporaries|
      invariant more == victims + StaleVictims(temporaries[..i])
    {
      StaleGrow(temporaries[..i], temporaries[i]);
      assert temporaries[..i + 1] == temporaries[..i] + [temporaries[i]];
      if temporaries[i].isPgm {
        more := more + [StaleTemporary(temporaries[i])];
      }
    }
    assert temporaries[..|temporaries|] == temporaries;
  }

  method PushOrphans(orphans: seq<Orphan>, victims: seq<Victim>) returns (more: seq<Victim>)
    ensures more == victims + OrphanVictims(orphans)
  {
    more := victims;
    for i := 0 to |orphans|
      invariant more == victims + OrphanVictims(orphans[..i])
    {
      OrphansGrow(orphans[..i], orphans[i]);
      assert orphans[..i + 1] == orphans[..i] + [orphans[i]];
      more := more + [OrphanOverview(orphans[i])];
    }
    assert orphans[..|orphans|] == orphans;
  }

  method PushEvidence(evidence: seq<Evidence>, victims: seq<Victim>) returns (more: seq<Victim>)
    ensures more == victims + EvidenceVictims(evidence)
  {
    more := victims;
    for i := 0 to |evidence|
      invariant more == victims + EvidenceVictims(evidence[..i])
    {
      EvidenceGrow(evidence[..i], evidence[i]);
      assert evidence[..i + 1] == evidence[..i] + [evidence[i]];
      more := more + [Quarantined(evidence[i])];
    }
    assert evidence[..|evidence|] == evidence;
  }

  method PushSegments(segments: seq<SegmentFiles>, victims: seq<Victim>) returns (more: seq<Victim>)
    ensures more == victims + SegmentVictims(segments)
  {
    more := victims;
    var deletable := Max(|segments| - 1, 0);
    for i := 0 to deletable
      invariant more == victims + SegmentVictims(segments[..Min(i + 1, |segments|)])
    {
      SegmentsGrow(segments[..i + 1], segments[i + 1]);
      assert segments[..i + 2] == segments[..i + 1] + [segments[i + 1]];
      more := more + [OldSegment(segments[i])];
    }
    assert segments[..|segments|] == segments;
  }

  /** `plan_victims`: writer temporaries, orphan overviews, quarantined evidence,
      and then sealed segments, oldest first and without the newest. */
  method PlanVictims(disk: Disk) returns (victims: seq<Victim>)
    ensures victims == Plan(disk)
  {
    victims := PushStale(disk.temporaries, []);
    victims := PushOrphans(disk.orphans, victims);
    victims := PushEvidence(disk.evidence, victims);
    victims := PushSegments(disk.segments, victims);
  }

  // ---- Deleting along the plan ----

  function DropStale(temporaries: seq<Temporary>): seq<Temporary> {
    if temporaries == [] then []
    else if temporaries[0].isPgm then temporaries[1..]
    else [temporaries[0]] + DropStale(temporaries[1..])
  }

  /** The tree without the first file of its plan. */
  function WithoutFirst(disk: Disk): Disk {
    if StaleVictims(disk.temporaries) != [] then disk.(temporaries := DropStale(disk.temporaries))
    else if disk.orphans != [] then disk.(orphans := disk.orphans[1..])
    else if disk.evidence != [] then disk.(evidence := disk.evidence[1..])
    else if |disk.segments| > 1 then disk.(segments := disk.segments[1..])
    else disk
  }

  function After(disk: Disk, k: nat): Disk {
    if k == 0 then disk else WithoutFirst(After(disk, k - 1))
  }

  lemma {:induction false} DropStaleStep(temporaries: seq<Temporary>)
    requires StaleVictims(temporaries) != []
    ensures var v := StaleVictims(temporaries)[0];
      && v.StaleTemporary?
      && StaleVictims(DropStale(temporaries)) == StaleVictims(temporaries)[1..]
      && TemporaryBytes(DropStale(temporaries)) + v.Bytes() == TemporaryBytes(temporaries)
  {
    if !temporaries[0].isPgm {
      DropStaleStep(temporaries[1..]);
      assert StaleVictims(temporaries) == StaleVictims(temporaries[1..]);
      var dropped := DropStale(temporaries);
      assert dropped[1..] == DropStale(temporaries[1..]);
      assert StaleVictims(dropped) == StaleVictims(dropped[1..]);
    }
  }

  /** The files that the sizes count, one victim apart. */
  ghost predicate SteppedSizes(disk: Disk, v: Victim, next: Disk) {
    && TreeBytes(next) + v.TreePart() == TreeBytes(disk)
    && EvidenceBytes(next.evidence) + (if v.Quarantined? then v.Bytes() else 0) == EvidenceBytes(disk.evidence)
    && |next.orphans| + (if v.OrphanOverview? then 1 else 0) == |disk.orphans|
  }

  ghost predicate SteppedSegments(disk: Disk, v: Victim, next: Disk) {
    && (v.OldSegment? ==> |disk.segments| > 1 && v.s == disk.segments[0])
    && next.segments == (if v.OldSegment? then disk.segments[1..] else disk.segments)
  }

  ghost predicate Stepped(disk: Disk, v: Victim, next: Disk) {
    SteppedSizes(disk, v, next) && SteppedSegments(disk, v, next)
  }

  lemma JoinTail(first: Victim, a: seq<Victim>, b: seq<Victim>)
    ensures ([first] + a) + b == [first] + (a + b)
  {
  }

  lemma StaleStep(disk: Disk)
    requires StaleVictims(disk.temporaries) != []
    ensures Plan(disk) == [StaleVictims(disk.temporaries)[0]] + Plan(WithoutFirst(disk))
    ensures Stepped(disk, StaleVictims(disk.temporaries)[0], WithoutFirst(disk))
  {
    DropStaleStep(disk.temporaries);
    var t, o := StaleVictims(disk.temporaries), OrphanVictims(disk.orphans);
    var e, s := EvidenceVictims(disk.evidence), SegmentVictims(disk.segments);
    assert t == [t[0]] + t[1..];
    JoinTail(t[0], t[1..], o);
    JoinTail(t[0], t[1..] + o, e);
    JoinTail(t[0], t[1..] + o + e, s);
  }

  lemma OrphanStep(disk: Disk)
    requires StaleVictims(disk.temporaries) == [] && disk.orphans != []
    ensures Plan(disk) == [OrphanOverview(disk.orphans[0])] + Plan(WithoutFirst(disk))
    ensures Stepped(disk, OrphanOverview(disk.orphans[0]), WithoutFirst(disk))
  {
    var v, o := OrphanOverview(disk.orphans[0]), OrphanVictims(disk.orphans[1..]);
    var e, s := EvidenceVictims(disk.evidence), SegmentVictims(disk.segments);
    assert [] + OrphanVictims(disk.orphans) == OrphanVictims(disk.orphans) && [] + o == o;
    JoinTail(v, o, e);
    JoinTail(v, o + e, s);
  }

  lemma EvidenceStep(disk: Disk)
    requires StaleVictims(disk.temporaries) == [] && disk.orphans == [] && disk.evidence != []
    ensures Plan(disk) == [Quarantined(disk.evidence[0])] + Plan(WithoutFirst(disk))
    ensures Stepped(disk, Quarantined(disk.evidence[0]), WithoutFirst(disk))
  {
    var none: seq<Victim> := [];
    var e := EvidenceVictims(disk.evidence[1..]);
    assert none + none + EvidenceVictims(disk.evidence) == EvidenceVictims(disk.evidence) && none + none + e == e;
    JoinTail(Quarantined(disk.evidence[0]), e, SegmentVictims(disk.segments));
  }

  lemma SegmentStep(disk: Disk)
    requires StaleVictims(disk.temporaries) == [] && disk.orphans == [] && disk.evidence == [] && |disk.segments| > 1
    ensures Plan(disk) == [OldSegment(disk.segments[0])] + Plan(WithoutFirst(disk))
    ensures Stepped(disk, OldSegment(disk.segments[0]), WithoutFirst(disk))
  {
  }

  /** Deleting the first file of the plan leaves exactly the rest of the plan,
      and takes exactly that file's bytes. */
  lemma StepAlongPlan(disk: Disk)
    requires Plan(disk) != []
    ensures Plan(WithoutFirst(disk)) == Plan(disk)[1..]
    ensures Stepped(disk, Plan(disk)[0], WithoutFirst(disk))
  {
    if StaleVictims(disk.temporaries) != [] {
      StaleStep(disk);
    } else if disk.orphans != [] {
      OrphanStep(disk);
    } else if disk.evidence != [] {
      EvidenceStep(disk);
    } else {
      SegmentStep(disk);
    }
  }

  // ---- Sums along the plan ----

  function Freed(plan: seq<Victim>): nat {
    if plan == [] then 0 else Freed(plan[..|plan| - 1]) + plan[|plan| - 1].Bytes()
  }

  function TreeFreed(plan: seq<Victim>): nat {
    if plan == [] then 0 else TreeFreed(plan[..|plan| - 1]) + plan[|plan| - 1].TreePart()
  }

  function EvidenceFreed(plan: seq<Victim>): nat {
    if plan == [] then 0
    else
      var last := plan[|plan| - 1];
      EvidenceFreed(plan[..|plan| - 1]) + if last.Quarantined? then last.Bytes() else 0
  }

  function OrphansIn(plan: seq<Victim>): nat {
    if plan == [] then 0
    else OrphansIn(plan[..|plan| - 1]) + if plan[|plan| - 1].OrphanOverview? then 1 else 0
  }

  lemma Extend(plan: seq<Victim>, k: nat)
    requires k < |plan|
    ensures Freed(plan[..k + 1]) == Freed(plan[..k]) + plan[k].Bytes()
    ensures TreeFreed(plan[..k + 1]) == TreeFreed(plan[..k]) + plan[k].TreePart()
    ensures EvidenceFreed(plan[..k + 1])
      == EvidenceFreed(plan[..k]) + (if plan[k].Quarantined? then plan[k].Bytes() else 0)
    ensures OrphansIn(plan[..k + 1]) == OrphansIn(plan[..k]) + (if plan[k].OrphanOverview? then 1 else 0)
  {
    assert plan[..k + 1][..k] == plan[..k];
  }

  /** Deleting `k` files leaves the plan without them. */
  lemma {:induction false} PlanLeft(disk: Disk, k: nat)
    requires k <= |Plan(disk)|
    ensures Plan(After(disk, k)) == Plan(disk)[k..]
  {
    if k > 0 {
      PlanLeft(disk, k - 1);
      StepAlongPlan(After(disk, k - 1));
      assert Plan(disk)[k - 1..][1..] == Plan(disk)[k..];
    }
  }

  lemma NextSizes(disk: Disk, k: nat)
    requires k < |Plan(disk)|
    ensures SteppedSizes(After(disk, k), Plan(disk)[k], After(disk, k + 1))
  {
    PlanLeft(disk, k);
    StepAlongPlan(After(disk, k));
  }

  function EvidencePart(v: Victim): u64 {
    if v.Quarantined? then v.Bytes() else 0
  }

  lemma NextBytes(disk: Disk, plan: seq<Victim>, k: nat)
    requires plan == Plan(disk) && k < |plan|
    ensures TreeBytes(After(disk, k + 1)) + plan[k].TreePart() == TreeBytes(After(disk, k))
    ensures EvidenceBytes(After(disk, k + 1).evidence) + EvidencePart(plan[k]) == EvidenceBytes(After(disk, k).evidence)
  {
    NextSizes(disk, k);
  }

  lemma {:induction false} TreeAlongPlan(disk: Disk, plan: seq<Victim>, k: nat)
    requires plan == Plan(disk) && k <= |plan|
    ensures TreeBytes(After(disk, k)) + TreeFreed(plan[..k]) == TreeBytes(disk)
  {
    if k > 0 {
      TreeAlongPlan(disk, plan, k - 1);
      NextBytes(disk, plan, k - 1);
      Extend(plan, k - 1);
    }
  }

  lemma {:induction false} EvidenceAlongPlan(disk: Disk, plan: seq<Victim>, k: nat)
    requires plan == Plan(disk) && k <= |plan|
    ensures EvidenceBytes(After(disk, k).evidence) + EvidenceFreed(plan[..k]) == EvidenceBytes(disk.evidence)
  {
    if k > 0 {
      EvidenceAlongPlan(disk, plan, k - 1);
      NextBytes(disk, plan, k - 1);
      Extend(plan, k - 1);
    }
  }

  lemma {:induction false} OrphansInAppend(a: seq<Victim>, b: seq<Victim>)
    ensures OrphansIn(a + b) == OrphansIn(a) + OrphansIn(b)
  {
    if b == [] {
      assert a + b == a;
    } else {
      var init := b[..|b| - 1];
      assert (a + b)[..|a + b| - 1] == a + init;
      OrphansInAppend(a, init);
    }
  }

  predicate NoOrphans(plan: seq<Victim>) {
    forall i :: 0 <= i < |plan| ==> !plan[i].OrphanOverview?
  }

  lemma {:induction false} NoOrphansIn(plan: seq<Victim>)
    requires NoOrphans(plan)
    ensures OrphansIn(plan) == 0
  {
    if plan != [] {
      NoOrphansIn(plan[..|plan| - 1]);
    }
  }

  lemma {:induction false} StaleAreNoOrphans(temporaries: seq<Temporary>)
    ensures NoOrphans(StaleVictims(temporaries))
  {
    if temporaries != [] {
      StaleAreNoOrphans(temporaries[1..]);
    }
  }

  lemma {:induction false} EvidenceIsNoOrphan(evidence: seq<Evidence>)
    ensures NoOrphans(EvidenceVictims(evidence))
  {
    if evidence != [] {
      EvidenceIsNoOrphan(evidence[1..]);
    }
  }

  lemma {:induction false} SegmentsAreNoOrphans(segments: seq<SegmentFiles>)
    ensures NoOrphans(SegmentVictims(segments))
  {
    if |segments| > 1 {
      SegmentsAreNoOrphans(segments[1..]);
    }
  }

  lemma {:induction false} AllOrphansIn(orphans: seq<Orphan>)
    ensures OrphansIn(OrphanVictims(orphans)) == |orphans|
  {
    if orphans != [] {
      var first := [OrphanOverview(orphans[0])];
      AllOrphansIn(orphans[1..]);
      OrphansInAppend(first, OrphanVictims(orphans[1..]));
      assert first[..0] == [];
    }
  }

  /** The plan lists every orphan overview. */
  lemma PlanListsOrphans(disk: Disk)
    ensures OrphansIn(Plan(disk)) == |disk.orphans|
  {
    var t, o := StaleVictims(disk.temporaries), OrphanVictims(disk.orphans);
    var e, s := EvidenceVictims(disk.evidence), SegmentVictims(disk.segments);
    StaleAreNoOrphans(disk.temporaries);
    EvidenceIsNoOrphan(disk.evidence);
    SegmentsAreNoOrphans(disk.segments);
    NoOrphansIn(t);
    NoOrphansIn(e);
    NoOrphansIn(s);
    AllOrphansIn(disk.orphans);
    OrphansInAppend(t, o);
    OrphansInAppend(t + o, e);
    OrphansInAppend(t + o + e, s);
  }

  lemma OrphansAlongPlan(disk: Disk, plan: seq<Victim>, k: nat)
    requires plan == Plan(disk) && k <= |plan|
    ensures |After(disk, k).orphans| + OrphansIn(plan[..k]) == |disk.orphans|
  {
    PlanListsOrphans(disk);
    PlanLeft(disk, k);
    PlanListsOrphans(After(disk, k));
    OrphansInAppend(plan[..k], plan[k..]);
    assert plan == plan[..k] + plan[k..];
  }

  lemma NextSegments(disk: Disk, k: nat)
    requires k < |Plan(disk)|
    ensures SteppedSegments(After(disk, k), Plan(disk)[k], After(disk, k + 1))
  {
    PlanLeft(disk, k);
    StepAlongPlan(After(disk, k));
  }

  /** Deleting along the plan takes exactly the bytes of the deleted files. */
  lemma AlongPlan(disk: Disk, k: nat)
    requires k <= |Plan(disk)|
    ensures var (deleted, next) := (Plan(disk)[..k], After(disk, k));
      && TreeBytes(next) + TreeFreed(deleted) == TreeBytes(disk)
      && EvidenceBytes(next.evidence) + EvidenceFreed(deleted) == EvidenceBytes(disk.evidence)
      && |next.orphans| + OrphansIn(deleted) == |disk.orphans|
  {
    TreeAlongPlan(disk, Plan(disk), k);
    EvidenceAlongPlan(disk, Plan(disk), k);
    OrphansAlongPlan(disk, Plan(disk), k);
  }

  /** Only the oldest segments go, and never the newest. */
  lemma {:induction false} NewestStay(disk: Disk, k: nat) returns (gone: nat)
    requires k <= |Plan(disk)|
    ensures gone <= |disk.segments| && After(disk, k).segments == disk.segments[gone..]
    ensures disk.segments != [] ==> gone < |disk.segments|
  {
    gone := 0;
    if k > 0 {
      gone := NewestStay(disk, k - 1);
      NextSegments(disk, k - 1);
      if Plan(disk)[k - 1].OldSegment? {
        assert disk.segments[gone..][1..] == disk.segments[gone + 1..];
        gone := gone + 1;
      }
    }
  }

  // ---- How far a pass reaches ----

  /** The number of files that one pass deletes when no removal fails. */
  function Cover(plan: seq<Victim>, deficit: nat): nat
    decreases |plan|
  {
    if deficit == 0 || plan == [] then 0
    else 1 + Cover(plan[1..], Max(deficit - plan[0].Bytes(), 0))
  }

  lemma {:induction false} FreedFromFront(plan: seq<Victim>, k: nat)
    requires 0 < k <= |plan|
    ensures Freed(plan[..k]) == plan[0].Bytes() + Freed(plan[1..][..k - 1])
  {
    Extend(plan, k - 1);
    if k == 1 {
      assert plan[..1][..0] == [];
    } else {
      FreedFromFront(plan, k - 1);
      Extend(plan[1..], k - 2);
    }
  }

  /** A pass deletes the shortest prefix of the plan that covers the deficit, or
      the whole plan when nothing does. */
  lemma {:induction false} CoverIsShortest(plan: seq<Victim>, deficit: nat)
    ensures Cover(plan, deficit) <= |plan|
    ensures Freed(plan[..Cover(plan, deficit)]) >= deficit || Cover(plan, deficit) == |plan|
    ensures forall j :: 0 <= j < Cover(plan, deficit) ==> Freed(plan[..j]) < deficit
    decreases |plan|
  {
    if deficit != 0 && plan != [] {
      var rest := Max(deficit - plan[0].Bytes(), 0);
      CoverIsShortest(plan[1..], rest);
      var k := Cover(plan, deficit);
      FreedFromFront(plan, k);
      forall j | 0 <= j < k
        ensures Freed(plan[..j]) < deficit
      {
        if j > 0 {
          FreedFromFront(plan, j);
        }
      }
    }
  }

  // ---- Repeated passes of a fixed budget ----

  /** The size that a fixed budget bounds; orphan overviews are not in it. */
  function FixedSize(disk: Disk, journalBytes: nat): nat {
    TreeBytes(disk) + journalBytes + EvidenceBytes(disk.evidence)
  }

  /** What one pass leaves when no removal fails and nothing else changes. */
  function FixedPass(disk: Disk, journalBytes: nat, budget: nat): Disk {
    After(disk, Cover(Plan(disk), Max(FixedSize(disk, journalBytes) - budget, 0)))
  }

  function FixedPasses(disk: Disk, journalBytes: nat, budget: nat, n: nat): Disk {
    if n == 0 then disk else FixedPass(FixedPasses(disk, journalBytes, budget, n - 1), journalBytes, budget)
  }

  /** Within the budget, or nothing left that may be deleted. */
  predicate Settled(disk: Disk, journalBytes: nat, budget: nat) {
    FixedSize(disk, journalBytes) <= budget || Plan(disk) == []
  }

  lemma {:induction false} FreedWithoutOrphans(plan: seq<Victim>)
    requires OrphansIn(plan) == 0
    ensures Freed(plan) == TreeFreed(plan) + EvidenceFreed(plan)
  {
    if plan != [] {
      FreedWithoutOrphans(plan[..|plan| - 1]);
    }
  }

  /** The sizes after a pass that deletes `deleted`. */
  lemma PassSizes(disk: Disk, journalBytes: nat, budget: nat) returns (k: nat, deleted: seq<Victim>)
    ensures k == Cover(Plan(disk), Max(FixedSize(disk, journalBytes) - budget, 0)) <= |Plan(disk)|
    ensures deleted == Plan(disk)[..k]
    ensures Freed(deleted) >= FixedSize(disk, journalBytes) - budget || k == |Plan(disk)|
    ensures var next := FixedPass(disk, journalBytes, budget);
      && FixedSize(next, journalBytes) + TreeFreed(deleted) + EvidenceFreed(deleted) == FixedSize(disk, journalBytes)
      && |next.orphans| + OrphansIn(deleted) == |disk.orphans|
      && (Plan(next) == [] <==> k == |Plan(disk)|)
  {
    var plan, deficit := Plan(disk), Max(FixedSize(disk, journalBytes) - budget, 0);
    k := Cover(plan, deficit);
    CoverIsShortest(plan, deficit);
    deleted := plan[..k];
    AlongPlan(disk, k);
    PlanLeft(disk, k);
  }

  /** A pass that ends above the budget with files left to delete was stopped
      short by orphan overviews, of which it deleted at least one. */
  lemma PassSettlesOrDropsOrphan(disk: Disk, journalBytes: nat, budget: nat)
    ensures var next := FixedPass(disk, journalBytes, budget);
      Settled(next, journalBytes, budget) || |next.orphans| < |disk.orphans|
  {
    var k, deleted := PassSizes(disk, journalBytes, budget);
    if OrphansIn(deleted) == 0 {
      FreedWithoutOrphans(deleted);
    }
  }

  /** One pass settles exactly when it may delete everything, or the deleted files
      that the budget counts cover the deficit without the orphan overviews. */
  lemma OnePassSettles(disk: Disk, journalBytes: nat, budget: nat)
    ensures var plan, deficit := Plan(disk), Max(FixedSize(disk, journalBytes) - budget, 0);
      var deleted := plan[..Min(Cover(plan, deficit), |plan|)];
      Settled(FixedPass(disk, journalBytes, budget), journalBytes, budget) <==>
      (deleted == plan || TreeFreed(deleted) + EvidenceFreed(deleted) >= deficit)
  {
    var k, deleted := PassSizes(disk, journalBytes, budget);
    assert deleted == Plan(disk) <==> k == |Plan(disk)|;
  }

  lemma FixedPassShrinks(disk: Disk, journalBytes: nat, budget: nat)
    ensures FixedSize(FixedPass(disk, journalBytes, budget), journalBytes) <= FixedSize(disk, journalBytes)
  {
    var k, deleted := PassSizes(disk, journalBytes, budget);
  }

  lemma SettledStays(disk: Disk, journalBytes: nat, budget: nat)
    requires Settled(disk, journalBytes, budget)
    ensures FixedPass(disk, journalBytes, budget) == disk
  {
  }

  lemma {:induction false} OrphansRunOut(disk: Disk, journalBytes: nat, budget: nat, n: nat)
    ensures var next := FixedPasses(disk, journalBytes, budget, n);
      (n > 0 && Settled(next, journalBytes, budget)) || |next.orphans| + n <= |disk.orphans|
  {
    if n > 0 {
      OrphansRunOut(disk, journalBytes, budget, n - 1);
      var before := FixedPasses(disk, journalBytes, budget, n - 1);
      PassSettlesOrDropsOrphan(before, journalBytes, budget);
      if n > 1 && Settled(before, journalBytes, budget) {
        SettledStays(before, journalBytes, budget);
      }
    }
  }

  /** One pass more than there are orphan overviews brings the size within the
      budget, or deletes everything that may be deleted. */
  lemma FixedModeConverges(disk: Disk, journalBytes: nat, budget: nat, n: nat)
    requires n > |disk.orphans|
    ensures Settled(FixedPasses(disk, journalBytes, budget, n), journalBytes, budget)
  {
    OrphansRunOut(disk, journalBytes, budget, n);
  }

  /** So one pass alone need not settle: an orphan overview covers the deficit here,
      and the size that the budget bounds does not move. */
  lemma OnePassIsNotEnough()
    ensures var disk := Disk([SegmentFiles(1, 10, None), SegmentFiles(2, 10, None)], [Orphan(0, 10)], [], []);
      FixedPass(disk, 0, 15) == disk.(orphans := []) && FixedSize(disk.(orphans := []), 0) == 20
  {
    var segments := [SegmentFiles(1, 10, None), SegmentFiles(2, 10, None)];
    var disk := Disk(segments, [Orphan(0, 10)], [], []);
    assert segments[1..] == [SegmentFiles(2, 10, None)] && SegmentBytes(segments) == 20;
    OrphanStep(disk);
    assert Cover(Plan(disk), 5) == 1;
    assert After(disk, 1) == WithoutFirst(After(disk, 0));
  }
}
