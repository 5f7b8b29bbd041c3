/** Published segments and live windows: what one seal does to the tree, and what
    the collector keeps account of. */
module Segments {
  import opened Machine
  import opened Bounds
  import opened Ledger
  import opened Admission
  import opened Journals

  // ---- Segments in the tree ----

  /** Where a journal's frames have gone: into a published segment, or with a
      journal that could not be sealed into quarantine. A segment holds all of them
      unless it was salvaged from a journal that was only readable in part; then the
      others are in quarantine. */
  datatype Placed = Segment(id: int, parts: seq<Part>, frames: seq<Part>) | Quarantined(frames: seq<Part>)

  type Tree = map<int, seq<Part>>

  /** The observable state: live windows are those of the journal, or of the
      evidence that a recovery has still to work on, unless they only repeat the
      last published segment. */
  datatype Snapshot = Snapshot(placed: seq<Placed>, live: seq<Part>, accepted: seq<Part>)

  function SegmentOf(parts: seq<Part>): Placed
    requires parts != []
  {
    Segment(parts[0].ts, parts, parts)
  }

  function Last(placed: seq<Placed>): Option<Placed> {
    if placed == [] then None else Some(placed[|placed| - 1])
  }

  /** The live windows become one published segment. */
  function Closed(s: Snapshot): Snapshot
    requires s.live != []
  {
    Snapshot(s.placed + [SegmentOf(s.live)], [], s.accepted)
  }

  /** Those of the live windows that were read become a segment under the identity
      of them all. */
  function Salvaged(s: Snapshot, parts: seq<Part>): Snapshot
    requires s.live != []
  {
    Snapshot(s.placed + [Segment(s.live[0].ts, parts, s.live)], [], s.accepted)
  }

  /** The live windows go into quarantine with their journal. */
  function Discarded(s: Snapshot): Snapshot
    requires s.live != []
  {
    Snapshot(s.placed + [Quarantined(s.live)], [], s.accepted)
  }

  function BeforeAppend(s: Snapshot, early: bool): Snapshot
    requires early ==> s.live != []
  {
    if early then Closed(s) else s
  }

  function Appended(s: Snapshot, part: Part): Snapshot {
    Snapshot(s.placed, s.live + [part], s.accepted + [part])
  }

  function Flatten(placed: seq<Placed>): seq<Part> {
    if placed == [] then [] else Flatten(placed[..|placed| - 1]) + placed[|placed| - 1].frames
  }

  function SectionsOf(parts: seq<Part>): seq<Section> {
    if parts == [] then [] else SectionsOf(parts[..|parts| - 1]) + parts[|parts| - 1].window.sections
  }

  function EntriesOf(parts: seq<Part>): seq<EntrySnapshot> {
    if parts == [] then [] else EntriesOf(parts[..|parts| - 1]) + parts[|parts| - 1].window.entries
  }

  lemma ContentsGrow(parts: seq<Part>, part: Part)
    ensures SectionsOf(parts + [part]) == SectionsOf(parts) + part.window.sections
    ensures EntriesOf(parts + [part]) == EntriesOf(parts) + part.window.entries
  {
    assert (parts + [part])[..|parts|] == parts;
  }

  lemma FlattenGrow(placed: seq<Placed>, s: Placed)
    ensures Flatten(placed + [s]) == Flatten(placed) + s.frames
  {
    assert (placed + [s])[..|placed|] == placed;
  }

  /** Every window brought a section. */
  ghost predicate WithSections(parts: seq<Part>) {
    forall i :: 0 <= i < |parts| ==> parts[i].window.sections != []
  }

  /** Each window holds something, the coalesced contents satisfy every sealed limit,
      and every dictionary id has one value. */
  ghost predicate ContentsFit(limits: Limits, parts: seq<Part>) {
    && WithSections(parts)
    && Consistent(EntriesOf(parts))
    && Fits(limits, LedgerOf(SectionsOf(parts), EntriesOf(parts)))
  }

  lemma {:induction false} EachPartHasSections(parts: seq<Part>)
    requires WithSections(parts)
    ensures |parts| <= |SectionsOf(parts)|
  {
    if parts != [] {
      EachPartHasSections(parts[..|parts| - 1]);
    }
  }

  /** So what fits a segment never reaches the journal's greatest number of parts. */
  lemma PartsAreFew(limits: Limits, parts: seq<Part>)
    requires ContentsFit(limits, parts)
    ensures |parts| <= MAX_SECTION_ROWS < MAX_JOURNAL_PARTS
  {
    EachPartHasSections(parts);
  }

  // ---- Windows left out ----

  /** The windows of `a` stand in `b` at these places. */
  predicate StandAt(a: seq<Part>, b: seq<Part>, at: seq<nat>) {
    && |at| == |a|
    && (forall j :: 0 <= j < |at| ==> at[j] < |b| && b[at[j]] == a[j])
    && (forall i, j :: 0 <= i < j < |at| ==> at[i] < at[j])
  }

  /** `a` holds windows of `b` in their order. */
  ghost predicate Sub(a: seq<Part>, b: seq<Part>) {
    exists at :: StandAt(a, b, at)
  }

  lemma SubPrefix(a: seq<Part>, n: nat)
    requires n <= |a|
    ensures Sub(a[..n], a)
  {
    assert StandAt(a[..n], a, seq(n, i => i));
  }

  lemma SubSelf(a: seq<Part>)
    ensures Sub(a, a)
  {
    SubPrefix(a, |a|);
    assert a[..|a|] == a;
  }

  lemma SubTransitive(a: seq<Part>, b: seq<Part>, c: seq<Part>)
    requires Sub(a, b) && Sub(b, c)
    ensures Sub(a, c)
  {
    var ab: seq<nat> :| StandAt(a, b, ab);
    var bc: seq<nat> :| StandAt(b, c, bc);
    assert StandAt(a, c, seq(|a|, i requires 0 <= i < |a| => bc[ab[i]]));
  }

  lemma SubGrow(a: seq<Part>, b: seq<Part>, last: Part)
    requires Sub(a, b)
    ensures Sub(a, b + [last]) && Sub(a + [last], b + [last])
  {
    var at: seq<nat> :| StandAt(a, b, at);
    assert StandAt(a, b + [last], at);
    assert StandAt(a + [last], b + [last], at + [|b|]);
  }

  /** Either the last window is left out, or both end with it. */
  lemma SubSplit(a: seq<Part>, b: seq<Part>)
    requires Sub(a, b) && a != []
    ensures b != []
    ensures var init := b[..|b| - 1];
      Sub(a, init) || (a[|a| - 1] == b[|b| - 1] && Sub(a[..|a| - 1], init))
  {
    var at: seq<nat> :| StandAt(a, b, at);
    var n, m := |a| - 1, |b| - 1;
    if at[n] < m {
      assert StandAt(a, b[..m], at);
    } else {
      assert StandAt(a[..n], b[..m], at[..n]);
    }
  }

  lemma {:induction false} SubIsShorter(a: seq<Part>, b: seq<Part>)
    requires Sub(a, b)
    ensures |a| <= |b| && JournalLen(a) <= JournalLen(b)
    ensures forall p :: p in a ==> p in b
    decreases |b|
  {
    if a != [] {
      SubSplit(a, b);
      var init, bs := a[..|a| - 1], b[..|b| - 1];
      assert a == init + [a[|a| - 1]] && b == bs + [b[|b| - 1]];
      FramesGrow(bs, b[|b| - 1]);
      if Sub(a, bs) {
        SubIsShorter(a, bs);
      } else {
        SubIsShorter(init, bs);
        FramesGrow(init, a[|a| - 1]);
      }
    }
  }

  /** The windows fit together with what comes behind them. */
  ghost predicate FitBefore(limits: Limits, parts: seq<Part>, sections: seq<Section>, entries: seq<EntrySnapshot>) {
    && Consistent(EntriesOf(parts) + entries)
    && Fits(limits, LedgerOf(SectionsOf(parts) + sections, EntriesOf(parts) + entries))
  }

  lemma LastBelongsBehind(limits: Limits, parts: seq<Part>, sections: seq<Section>, entries: seq<EntrySnapshot>)
    requires parts != []
    ensures var init, w := parts[..|parts| - 1], parts[|parts| - 1].window;
      FitBefore(limits, parts, sections, entries) <==>
      FitBefore(limits, init, w.sections + sections, w.entries + entries)
  {
    var init, w := parts[..|parts| - 1], parts[|parts| - 1].window;
    assert SectionsOf(parts) + sections == SectionsOf(init) + (w.sections + sections);
    assert EntriesOf(parts) + entries == EntriesOf(init) + (w.entries + entries);
  }

  lemma LastLeftOut(limits: Limits, parts: seq<Part>, sections: seq<Section>, entries: seq<EntrySnapshot>)
    requires Bounds.Sound(limits) && parts != [] && FitBefore(limits, parts, sections, entries)
    ensures FitBefore(limits, parts[..|parts| - 1], sections, entries)
  {
    var init, w := parts[..|parts| - 1], parts[|parts| - 1].window;
    MiddleLeftOut(limits, SectionsOf(init), EntriesOf(init), w.sections, w.entries, sections, entries);
  }

  /** That stays so when windows are left out. */
  lemma {:induction false} LeftOutFits(limits: Limits, a: seq<Part>, b: seq<Part>,
                                       sections: seq<Section>, entries: seq<EntrySnapshot>)
    requires Bounds.Sound(limits) && Sub(a, b) && FitBefore(limits, b, sections, entries)
    ensures FitBefore(limits, a, sections, entries)
    decreases |b|
  {
    if b != [] {
      var bs, w := b[..|b| - 1], b[|b| - 1].window;
      if a != [] {
        SubSplit(a, b);
      } else {
        SubPrefix(bs, 0);
      }
      if Sub(a, bs) {
        LastLeftOut(limits, b, sections, entries);
        LeftOutFits(limits, a, bs, sections, entries);
      } else {
        LastBelongsBehind(limits, b, sections, entries);
        LeftOutFits(limits, a[..|a| - 1], bs, w.sections + sections, w.entries + entries);
        LastBelongsBehind(limits, a, sections, entries);
      }
    }
  }

  /** What is read of a journal that fits one segment fits one segment. */
  lemma SubFits(limits: Limits, a: seq<Part>, b: seq<Part>)
    requires Bounds.Sound(limits) && Sub(a, b) && ContentsFit(limits, b)
    ensures ContentsFit(limits, a)
  {
    assert SectionsOf(b) + [] == SectionsOf(b) && EntriesOf(b) + [] == EntriesOf(b);
    assert SectionsOf(a) + [] == SectionsOf(a) && EntriesOf(a) + [] == EntriesOf(a);
    LeftOutFits(limits, a, b, [], []);
    SubIsShorter(a, b);
    forall i | 0 <= i < |a|
      ensures a[i].window.sections != []
    {
      assert a[i] in b;
    }
  }

  /** The ledger is the recount of exactly these parts. */
  ghost predicate LedgerCounts(limits: Limits, ledger: (Ledger, seq<Section>, seq<EntrySnapshot>), parts: seq<Part>) {
    && WithSections(parts)
    && Counted(limits, ledger.0, ledger.1, ledger.2)
    && ledger.1 == SectionsOf(parts) && ledger.2 == EntriesOf(parts)
  }

  ghost predicate PartDelta(parts: seq<Part>, part: Part, delta: AdmissionDelta) {
    DeltaOf(EntriesOf(parts), part.window, delta)
  }

  ghost predicate Compatible(parts: seq<Part>) {
    Consistent(EntriesOf(parts))
  }

  lemma NothingContained(limits: Limits)
    requires Bounds.Sound(limits)
    ensures ContentsFit(limits, [])
  {
    NothingFits(limits);
  }

  /** A rule for what one segment may hold; here always `ContentsFit`. */
  type Contents = seq<Part> -> bool

  /** Not empty and within the limits; a segment is named by the first window of its
      journal and holds windows of it in their order. */
  ghost predicate WellPlaced(fits: Contents, s: Placed) {
    && s.frames != [] && fits(s.frames)
    && (s.Segment? ==> s.parts != [] && fits(s.parts) && Sub(s.parts, s.frames))
    && (s.Segment? ==> s.id == s.frames[0].ts && IsSegmentId(s.id))
  }

  /** The tree after the segments have been published in order. */
  function TreeOf(initial: Tree, placed: seq<Placed>): Tree {
    if placed == [] then initial
    else Published(TreeOf(initial, placed[..|placed| - 1]), placed[|placed| - 1])
  }

  function Published(tree: Tree, s: Placed): Tree {
    if s.Segment? then tree[s.id := s.parts] else tree
  }

  predicate MayPublish(tree: Tree, s: Placed) {
    s.Segment? && s.id in tree ==> tree[s.id] == s.parts
  }

  /** No segment replaced another when it was published. */
  ghost predicate NoneReplaced(initial: Tree, placed: seq<Placed>) {
    placed != [] ==>
      var init, last := placed[..|placed| - 1], placed[|placed| - 1];
      NoneReplaced(initial, init) && MayPublish(TreeOf(initial, init), last)
  }

  /** Conservation: the windows of segments and quarantined journals, then the live
      ones, are the accepted ones, each once and in order. */
  ghost predicate Conserved(placed: seq<Placed>, live: seq<Part>, accepted: seq<Part>) {
    Flatten(placed) + live == accepted
  }

  /** Everything the collector has taken is in a segment of the tree, quarantined or
      live, and the tree holds nothing that it did not hold or publish. */
  ghost predicate Books(fits: Contents, initial: Tree, tree: Tree, s: Snapshot) {
    && Conserved(s.placed, s.live, s.accepted)
    && tree == TreeOf(initial, s.placed)
    && NoneReplaced(initial, s.placed)
    && AllPlaced(fits, s.placed)
  }

  ghost predicate AllPlaced(fits: Contents, placed: seq<Placed>) {
    forall i :: 0 <= i < |placed| ==> WellPlaced(fits, placed[i])
  }

  lemma TreeGrows(initial: Tree, placed: seq<Placed>, s: Placed)
    requires NoneReplaced(initial, placed) && MayPublish(TreeOf(initial, placed), s)
    ensures NoneReplaced(initial, placed + [s])
    ensures TreeOf(initial, placed + [s]) == Published(TreeOf(initial, placed), s)
  {
    assert (placed + [s])[..|placed|] == placed;
  }

  lemma AllPlacedGrows(fits: Contents, placed: seq<Placed>, s: Placed)
    requires AllPlaced(fits, placed) && WellPlaced(fits, s)
    ensures AllPlaced(fits, placed + [s])
  {
  }

  lemma PlaceKeepsBooks(fits: Contents, initial: Tree, tree: Tree, s: Snapshot, p: Placed)
    requires Books(fits, initial, tree, s)
    requires WellPlaced(fits, p) && p.frames == s.live && MayPublish(tree, p)
    ensures Books(fits, initial, Published(tree, p), Snapshot(s.placed + [p], [], s.accepted))
  {
    TreeGrows(initial, s.placed, p);
    AllPlacedGrows(fits, s.placed, p);
    FlattenGrow(s.placed, p);
  }

  lemma ConservedGrows(placed: seq<Placed>, live: seq<Part>, accepted: seq<Part>, part: Part)
    requires Conserved(placed, live, accepted)
    ensures Conserved(placed, live + [part], accepted + [part])
  {
    assert Flatten(placed) + (live + [part]) == (Flatten(placed) + live) + [part];
  }

  lemma AppendKeepsBooks(fits: Contents, initial: Tree, tree: Tree, s: Snapshot, part: Part)
    requires Books(fits, initial, tree, s)
    ensures Books(fits, initial, tree, Appended(s, part))
  {
    ConservedGrows(s.placed, s.live, s.accepted, part);
  }

  lemma {:induction false} TreeKeeps(initial: Tree, placed: seq<Placed>, id: int)
    requires NoneReplaced(initial, placed) && id in initial
    ensures id in TreeOf(initial, placed) && TreeOf(initial, placed)[id] == initial[id]
  {
    if placed != [] {
      TreeKeeps(initial, placed[..|placed| - 1], id);
    }
  }

  lemma {:induction false} TreeHas(initial: Tree, placed: seq<Placed>, i: nat)
    requires NoneReplaced(initial, placed) && i < |placed| && placed[i].Segment?
    ensures placed[i].id in TreeOf(initial, placed)
    ensures TreeOf(initial, placed)[placed[i].id] == placed[i].parts
  {
    if i < |placed| - 1 {
      TreeHas(initial, placed[..|placed| - 1], i);
    }
  }

  lemma {:induction false} TreeHasOnly(initial: Tree, placed: seq<Placed>, id: int)
    requires id in TreeOf(initial, placed)
    ensures id in initial || exists i :: 0 <= i < |placed| && placed[i].Segment? && placed[i].id == id
  {
    if placed != [] {
      var init, last := placed[..|placed| - 1], placed[|placed| - 1];
      if last.Segment? && last.id == id {
        assert placed[|placed| - 1].Segment? && placed[|placed| - 1].id == id;
      } else {
        TreeHasOnly(initial, init, id);
        if i :| 0 <= i < |init| && init[i].Segment? && init[i].id == id {
          assert placed[i].Segment? && placed[i].id == id;
        }
      }
    }
  }

  /** The tree keeps what it held at first, holds every published segment
      unchanged, and holds nothing else. */
  lemma TreeHolds(initial: Tree, placed: seq<Placed>)
    requires NoneReplaced(initial, placed)
    ensures forall id :: id in initial ==> id in TreeOf(initial, placed) && TreeOf(initial, placed)[id] == initial[id]
    ensures forall i :: 0 <= i < |placed| && placed[i].Segment? ==>
      && placed[i].id in TreeOf(initial, placed)
      && TreeOf(initial, placed)[placed[i].id] == placed[i].parts
    ensures forall id :: id in TreeOf(initial, placed) ==>
      id in initial || exists i :: 0 <= i < |placed| && placed[i].Segment? && placed[i].id == id
  {
    forall id | id in initial
      ensures id in TreeOf(initial, placed) && TreeOf(initial, placed)[id] == initial[id]
    {
      TreeKeeps(initial, placed, id);
    }
    forall i | 0 <= i < |placed| && placed[i].Segment?
      ensures placed[i].id in TreeOf(initial, placed)
      ensures TreeOf(initial, placed)[placed[i].id] == placed[i].parts
    {
      TreeHas(initial, placed, i);
    }
    forall id | id in TreeOf(initial, placed)
      ensures id in initial || exists i :: 0 <= i < |placed| && placed[i].Segment? && placed[i].id == id
    {
      TreeHasOnly(initial, placed, id);
    }
  }

  // ---- Each window is in one place ----

  ghost predicate DistinctTimes(parts: seq<Part>) {
    forall i, j :: 0 <= i < j < |parts| ==> parts[i].ts != parts[j].ts
  }

  /** Where the first window of a published segment stands in the whole. */
  lemma {:induction false} FirstWindow(placed: seq<Placed>, k: nat)
    requires k < |placed| && placed[k].frames != []
    ensures |Flatten(placed[..k])| < |Flatten(placed[..k + 1])| <= |Flatten(placed)|
    ensures Flatten(placed)[|Flatten(placed[..k])|] == placed[k].frames[0]
  {
    var n := |placed| - 1;
    if k == n {
      assert placed[..k + 1] == placed;
    } else {
      FirstWindow(placed[..n], k);
      assert placed[..n][..k] == placed[..k];
      assert placed[..n][..k + 1] == placed[..k + 1];
    }
  }

  lemma {:induction false} FlattenMonotone(placed: seq<Placed>, i: nat, j: nat)
    requires i <= j <= |placed|
    ensures |Flatten(placed[..i])| <= |Flatten(placed[..j])|
  {
    if i < j {
      FlattenMonotone(placed, i, j - 1);
      assert placed[..j][..j - 1] == placed[..j - 1];
    }
  }

  /** When no two accepted windows share a timestamp, no two published segments
      share a name: none is published twice. */
  lemma SegmentsAreDistinct(placed: seq<Placed>, live: seq<Part>, accepted: seq<Part>, i: nat, j: nat)
    requires Conserved(placed, live, accepted) && DistinctTimes(accepted) && i < j < |placed|
    requires placed[i].Segment? && placed[i].frames != [] && placed[i].id == placed[i].frames[0].ts
    requires placed[j].Segment? && placed[j].frames != [] && placed[j].id == placed[j].frames[0].ts
    ensures placed[i].id != placed[j].id
  {
    FirstWindow(placed, i);
    FirstWindow(placed, j);
    FlattenMonotone(placed, i + 1, j);
    var a, b := |Flatten(placed[..i])|, |Flatten(placed[..j])|;
    assert accepted[a] == Flatten(placed)[a] && accepted[b] == Flatten(placed)[b];
  }

  // ---- The collector's invariants, folded ----

  /** The statements about contents as the collector sees them: it only carries
      them from one state to the next. */
  datatype Rules = Rules(
    fits: Contents,
    compatible: Contents,
    among: (seq<Part>, seq<Part>) -> bool,
    counts: ((Ledger, seq<Section>, seq<EntrySnapshot>), seq<Part>) -> bool,
    leads: (seq<Part>, Part, AdmissionDelta) -> bool,
    books: (Tree, Snapshot) -> bool)

  ghost predicate RulesOf(limits: Limits, initial: Tree, rules: Rules) {
    && Bounds.Sound(limits)
    && (forall parts {:trigger ContentsFit(limits, parts)} :: rules.fits(parts) <==> ContentsFit(limits, parts))
    && (forall parts {:trigger Compatible(parts)} :: rules.compatible(parts) <==> Compatible(parts))
    && (forall a, b {:trigger Sub(a, b)} :: rules.among(a, b) <==> Sub(a, b))
    && (forall l, parts {:trigger LedgerCounts(limits, l, parts)} ::
          rules.counts(l, parts) <==> LedgerCounts(limits, l, parts))
    && (forall parts, part, delta {:trigger PartDelta(parts, part, delta)} ::
          rules.leads(parts, part, delta) <==> PartDelta(parts, part, delta))
    && (forall tree, s {:trigger Books(rules.fits, initial, tree, s)} ::
          rules.books(tree, s) <==> Books(rules.fits, initial, tree, s))
  }

  ghost function MakeRules(limits: Limits, initial: Tree): (rules: Rules)
    requires Bounds.Sound(limits)
    ensures RulesOf(limits, initial, rules)
  {
    var fits: Contents := parts => ContentsFit(limits, parts);
    Rules(fits, parts => Compatible(parts), (a, b) => Sub(a, b), (l, parts) => LedgerCounts(limits, l, parts),
          (parts, part, delta) => PartDelta(parts, part, delta), (tree, s) => Books(fits, initial, tree, s))
  }

  lemma AmongSelf(limits: Limits, initial: Tree, rules: Rules, parts: seq<Part>)
    requires RulesOf(limits, initial, rules)
    ensures rules.among(parts, parts)
  {
    SubSelf(parts);
  }

  lemma AmongFits(limits: Limits, initial: Tree, rules: Rules, a: seq<Part>, b: seq<Part>)
    requires RulesOf(limits, initial, rules) && rules.among(a, b) && rules.fits(b)
    ensures rules.fits(a)
  {
    assert Sub(a, b) && ContentsFit(limits, b);
    SubFits(limits, a, b);
    assert ContentsFit(limits, a);
  }

  /** A ledger that counts the parts assesses one more: it is admitted exactly
      when all of them together fit. A window that fits alone and contradicts
      nothing is refused only for want of room. */
  method AssessPart(limits: Limits, ghost initial: Tree, ghost rules: Rules, admission: SegmentAdmission,
                    ghost parts: seq<Part>, part: Part)
    returns (r: Result<AdmissionDelta, AdmissionError>)
    requires RulesOf(limits, initial, rules) && admission.limits == limits && rules.counts(admission.Account(), parts)
    requires IsWindow(part.window)
    ensures r.Ok? <==> rules.fits(parts + [part])
    ensures r.Ok? ==> rules.leads(parts, part, r.value) && rules.fits([part])
    ensures r.Err? && rules.fits([part]) && rules.compatible(parts + [part]) && CapacityErrors(limits) ==>
      r.error.IsCapacity()
  {
    assert LedgerCounts(limits, admission.Account(), parts);
    r := admission.Assess(part.window);
    PartFits(limits, parts, part);
    assert ContentsFit(limits, parts + [part]) == Admissible(limits, SectionsOf(parts), EntriesOf(parts), part.window);
    if r.Ok? {
      assert PartDelta(parts, part, r.value) && ContentsFit(limits, [part]);
    } else if rules.fits([part]) && rules.compatible(parts + [part]) && CapacityErrors(limits) {
      assert ContentsFit(limits, [part]) && Compatible(parts + [part]);
      RefusalIsCapacity(limits, SectionsOf(parts), EntriesOf(parts), part.window, r.error);
    }
  }

  /** All parts together fit exactly when the last one's window is admitted on top
      of the others. */
  lemma TogetherIsAdmitted(limits: Limits, parts: seq<Part>, part: Part)
    requires WithSections(parts) && part.window.sections != []
    ensures ContentsFit(limits, parts + [part]) <==>
      Admissible(limits, SectionsOf(parts), EntriesOf(parts), part.window)
    ensures Compatible(parts + [part]) <==> Consistent(EntriesOf(parts) + part.window.entries)
  {
    ContentsGrow(parts, part);
  }

  lemma AloneIsAdmitted(limits: Limits, part: Part)
    requires part.window.sections != []
    ensures ContentsFit(limits, [part]) <==> Admissible(limits, [], [], part.window)
  {
    assert [] + [part] == [part];
    TogetherIsAdmitted(limits, [], part);
  }

  lemma PartFits(limits: Limits, parts: seq<Part>, part: Part)
    requires Bounds.Sound(limits) && WithSections(parts) && part.window.sections != []
    ensures ContentsFit(limits, parts + [part]) <==>
      Admissible(limits, SectionsOf(parts), EntriesOf(parts), part.window)
    ensures ContentsFit(limits, [part]) <==> Admissible(limits, [], [], part.window)
    ensures ContentsFit(limits, parts + [part]) ==> ContentsFit(limits, [part])
    ensures Compatible(parts + [part]) <==> Consistent(EntriesOf(parts) + part.window.entries)
  {
    TogetherIsAdmitted(limits, parts, part);
    AloneIsAdmitted(limits, part);
    if Admissible(limits, SectionsOf(parts), EntriesOf(parts), part.window) {
      AloneFirst(limits, SectionsOf(parts), EntriesOf(parts), part.window);
    }
  }

  /** The same against an empty ledger: does the window fit by itself? */
  method AssessAlone(limits: Limits, ghost initial: Tree, ghost rules: Rules, part: Part)
    returns (r: Result<AdmissionDelta, AdmissionError>)
    requires RulesOf(limits, initial, rules) && IsWindow(part.window)
    ensures r.Ok? <==> rules.fits([part])
    ensures r.Ok? ==> rules.leads([], part, r.value)
  {
    var empty := new SegmentAdmission(limits);
    assert LedgerCounts(limits, empty.Account(), []);
    assert [] + [part] == [part];
    r := AssessPart(limits, initial, rules, empty, [], part);
  }

  /** A delta is applied to the very ledger it was assessed against. */
  method CommitPart(limits: Limits, ghost initial: Tree, ghost rules: Rules, admission: SegmentAdmission,
                    ghost parts: seq<Part>, ghost part: Part, delta: AdmissionDelta)
    requires RulesOf(limits, initial, rules) && admission.limits == limits && rules.counts(admission.Account(), parts)
    requires rules.leads(parts, part, delta) && rules.fits(parts + [part])
    modifies admission
    ensures rules.counts(admission.Account(), parts + [part])
  {
    assert LedgerCounts(limits, admission.Account(), parts) && PartDelta(parts, part, delta);
    assert ContentsFit(limits, parts + [part]);
    PartFits(limits, parts, part);
    ContentsGrow(parts, part);
    admission.Commit(part.window, delta);
    assert LedgerCounts(limits, admission.Account(), parts + [part]);
  }

  lemma SealStep(limits: Limits, initial: Tree, rules: Rules, tree: Tree, s: Snapshot)
    requires RulesOf(limits, initial, rules) && rules.books(tree, s) && rules.fits(s.live)
    requires s.live != [] && IsSegmentId(s.live[0].ts) && MayPublish(tree, SegmentOf(s.live))
    ensures rules.books(tree[s.live[0].ts := s.live], Closed(s))
  {
    AmongSelf(limits, initial, rules, s.live);
    SalvageStep(limits, initial, rules, tree, s, s.live);
  }

  lemma SalvageStep(limits: Limits, initial: Tree, rules: Rules, tree: Tree, s: Snapshot, parts: seq<Part>)
    requires RulesOf(limits, initial, rules) && rules.books(tree, s) && rules.fits(s.live) && rules.among(parts, s.live)
    requires parts != [] && s.live != [] && IsSegmentId(s.live[0].ts)
    requires MayPublish(tree, Segment(s.live[0].ts, parts, s.live))
    ensures rules.books(tree[s.live[0].ts := parts], Salvaged(s, parts))
  {
    AmongFits(limits, initial, rules, parts, s.live);
    assert Sub(parts, s.live);
    assert Books(rules.fits, initial, tree, s);
    PlaceKeepsBooks(rules.fits, initial, tree, s, Segment(s.live[0].ts, parts, s.live));
    assert Books(rules.fits, initial, tree[s.live[0].ts := parts], Salvaged(s, parts));
  }

  lemma QuarantineStep(limits: Limits, initial: Tree, rules: Rules, tree: Tree, s: Snapshot)
    requires RulesOf(limits, initial, rules) && rules.books(tree, s) && s.live != [] && rules.fits(s.live)
    ensures rules.books(tree, Discarded(s))
  {
    assert Books(rules.fits, initial, tree, s);
    PlaceKeepsBooks(rules.fits, initial, tree, s, Quarantined(s.live));
    assert Books(rules.fits, initial, tree, Discarded(s));
  }

  lemma AppendStep(limits: Limits, initial: Tree, rules: Rules, tree: Tree, s: Snapshot, part: Part)
    requires RulesOf(limits, initial, rules) && rules.books(tree, s)
    ensures rules.books(tree, Appended(s, part))
  {
    assert Books(rules.fits, initial, tree, s);
    AppendKeepsBooks(rules.fits, initial, tree, s, part);
    assert Books(rules.fits, initial, tree, Appended(s, part));
  }

  lemma LastInTree(limits: Limits, initial: Tree, rules: Rules, tree: Tree, s: Snapshot)
    requires RulesOf(limits, initial, rules) && rules.books(tree, s)
    requires s.placed != [] && s.placed[|s.placed| - 1].Segment?
    ensures var last := s.placed[|s.placed| - 1];
      last.frames != [] && last.id == last.frames[0].ts && last.id in tree && tree[last.id] == last.parts
  {
    assert Books(rules.fits, initial, tree, s);
  }

  // ---- Sealing ----

  datatype SealError = NothingToSeal | UnreadableJournal | IdMismatch | NotWritten | ExistingSegmentMismatch

  /** What the file system does to one seal and the reset behind it. */
  datatype SealFaults = SealFaults(written: bool, marker: Write, emptied: bool) {
    predicate Resets() {
      marker == Durable && emptied
    }

    predicate None() {
      written && Resets()
    }
  }

  predicate CanSealAs(id: int, parts: seq<Part>, poisoned: bool, tree: Tree, written: bool) {
    parts != [] && !poisoned && written && (id in tree ==> tree[id] == parts)
  }

  predicate CanSeal(parts: seq<Part>, poisoned: bool, tree: Tree, written: bool) {
    parts != [] && CanSealAs(parts[0].ts, parts, poisoned, tree, written)
  }

  /** `seal` publishes the journal's parts and never replaces a segment: an
      existing one must be the same. */
  method Seal(parts: seq<Part>, segmentId: Option<int>, poisoned: bool, id: int, tree: Tree, written: bool)
    returns (r: Result<(), SealError>, next: Tree)
    requires parts == [] <==> segmentId.None?
    ensures r.Ok? <==> CanSealAs(id, parts, poisoned, tree, written) && segmentId == Some(id)
    ensures next == if r.Ok? then tree[id := parts] else tree
    ensures r.Err? ==> (r.error == NothingToSeal <==> parts == [])
    ensures r.Err? && r.error == ExistingSegmentMismatch ==> id in tree && tree[id] != parts
    ensures CanSealAs(id, parts, poisoned, map[], written) && segmentId == Some(id) && r.Err? ==>
      r.error == ExistingSegmentMismatch
  {
    next := tree;
    if parts == [] {
      return Err(NothingToSeal), next;
    }
    if segmentId.Some? && segmentId.value != id {
      return Err(IdMismatch), next;
    }
    if poisoned {
      return Err(UnreadableJournal), next;
    }
    if !written {
      return Err(NotWritten), next;
    }
    if id in tree {
      if tree[id] != parts {
        return Err(ExistingSegmentMismatch), next;
      }
      assert tree[id := parts] == tree;
      return Ok(()), next;
    }
    r, next := Ok(()), tree[id := parts];
  }

  datatype Reason = Forced | Tick | Size | Age | FormatLimit | JournalFull

  function SealReason(forced: bool, journalBytes: nat, maxBytes: nat, ageExpired: bool): Option<Reason> {
    if forced then Some(Forced)
    else if maxBytes == 0 then Some(Tick)
    else if journalBytes >= maxBytes then Some(Size)
    else if ageExpired then Some(Age)
    else None
  }

  predicate AgeExpired(openedAt: Option<nat>, now: nat, maxAge: nat) {
    openedAt.Some? && Max(now - openedAt.value, 0) >= maxAge
  }

  // ---- What one call did ----

  /** The list names the segments that were published, in order. */
  ghost predicate Listed(list: seq<(int, Reason)>, before: seq<Placed>, after: seq<Placed>) {
    && |after| == |before| + |list|
    && after[..|before|] == before
    && forall k :: 0 <= k < |list| ==> after[|before| + k].Segment? && list[k].0 == after[|before| + k].id
  }

  /** Whether the open segment was sealed before the append, whether the window
      was appended, and whether the segment with it was sealed afterwards. */
  datatype Outcome = Outcome(early: bool, taken: bool, closed: bool)

  function LiveAfter(live: seq<Part>, part: Part, early: bool, taken: bool): seq<Part> {
    (if early then [] else live) + (if taken then [part] else [])
  }

  /** At most one seal before the append and one after it, of exactly these parts. */
  ghost predicate Moved(before: Snapshot, after: Snapshot, part: Part, o: Outcome) {
    && (o.early ==> before.live != [])
    && (o.closed ==> o.taken)
    && after.accepted == before.accepted + (if o.taken then [part] else [])
    && after.live == (if o.closed then [] else LiveAfter(before.live, part, o.early, o.taken))
    && after.placed == before.placed
                          + (if o.early then [SegmentOf(before.live)] else [])
                          + (if o.closed then [SegmentOf(LiveAfter(before.live, part, o.early, o.taken))] else [])
  }

  function AfterAppend(s: Snapshot, part: Part, taken: bool, closed: bool): Snapshot
    requires closed ==> taken
  {
    var open := if taken then Appended(s, part) else s;
    if closed then Closed(open) else open
  }

  /** So a call seals at most once before the append and once after it, exactly
      the windows that stood together, and takes the window once or not at all. */
  lemma AfterAppendMoved(before: Snapshot, early: bool, part: Part, taken: bool, closed: bool)
    requires early ==> before.live != []
    requires closed ==> taken
    ensures Moved(before, AfterAppend(BeforeAppend(before, early), part, taken, closed), part,
                  Outcome(early, taken, closed))
  {
    var after := AfterAppend(BeforeAppend(before, early), part, taken, closed);
    assert after.live == if closed then [] else LiveAfter(before.live, part, early, taken);
  }

  lemma AfterAppendExtends(before: Snapshot, early: bool, part: Part, taken: bool, closed: bool)
    requires early ==> before.live != []
    requires closed ==> taken
    ensures before.placed <= AfterAppend(BeforeAppend(before, early), part, taken, closed).placed
    ensures AfterAppend(BeforeAppend(before, early), part, taken, closed).accepted
      == before.accepted + (if taken then [part] else [])
  {
  }

  function When(sealed: bool, reason: Reason): Option<Reason> {
    if sealed then Some(reason) else None
  }

  /** What a seal of these parts adds to the announced list. */
  function Notice(why: Option<Reason>, parts: seq<Part>): seq<(int, Reason)>
    requires why.Some? ==> parts != []
  {
    if why.Some? then [(parts[0].ts, why.value)] else []
  }

  /** Of two seals that were possible, only one happened. */
  lemma OneReason(done: bool, limit: bool, full: bool, parts: seq<Part>,
                  a: seq<(int, Reason)>, b: seq<(int, Reason)>)
    requires (limit || full ==> parts != []) && !(limit && full)
    requires done ==> a == Notice(When(limit, FormatLimit), parts)
    requires done && !limit ==> b == Notice(When(full, JournalFull), parts)
    requires done && limit ==> b == []
    ensures done ==> a + b == Notice(When(limit || full, if limit then FormatLimit else JournalFull), parts)
  {
  }

  /** What is announced is what was published, in order: the segment sealed before
      the append, then the one with the window. */
  lemma AnnouncedInOrder(before: Snapshot, part: Part, early: Option<Reason>, last: Option<Reason>)
    requires early.Some? ==> before.live != []
    ensures var list := Notice(early, before.live) + Notice(last, LiveAfter(before.live, part, early.Some?, true));
      Listed(list, before.placed, AfterAppend(BeforeAppend(before, early.Some?), part, true, last.Some?).placed)
  {
    AfterAppendMoved(before, early.Some?, part, true, last.Some?);
  }

  /** What the file system and the clock do during one call. */
  datatype Faults = Faults(
    early: SealFaults, append: Write, full: SealFaults, retry: Write, now: nat, final: SealFaults)
  {
    predicate None() {
      early.None() && append == Durable && full.None() && retry == Durable && final.None()
    }

    /** Nothing that happens makes a restart necessary. */
    predicate Sound() {
      && early.Resets() && append != RollbackFails && full.Resets() && retry != RollbackFails && final.Resets()
    }
  }
}
