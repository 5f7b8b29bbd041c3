/** The transaction that appends collection windows and publishes segments, and
    whole runs of the collector with failures and restarts. */
module Collectors {
  import opened Machine
  import opened Bounds
  import opened Ledger
  import opened Admission
  import opened Journals
  import opened Segments
  import opened Recoveries
  import opened Ticks

  datatype CollectorError =
    | RestartRequired
    | WindowTooLarge(admission: AdmissionError)
    | WindowRejected(admission: AdmissionError)
    | NoOpenSegment
    | SealFailed(seal: SealError)
    | ResetFailed(journal: JournalError)
    | TimestampOutOfRange
    | AppendFailed(journal: JournalError)
    | JournalNotRecovered

  datatype SegmentState = SegmentState(firstId: Option<int>, openedAt: Option<nat>, publishedPendingReset: bool)

  /** Where accepted windows were placed and what was appended so far, and whether
      the journal only repeats the last published segment. */
  datatype History = History(placed: seq<Placed>, accepted: seq<Part>, repeated: bool)

  predicate WellFormed(e: Event) {
    e.OneTick? && e.window.Some? ==> IsWindow(e.window.value.part.window)
  }

  /** The windows offered by the events that were taken, in order. */
  ghost function Chosen(events: seq<Event>, taken: seq<bool>): seq<Part>
    requires |events| == |taken|
  {
    if events == [] then []
    else
      var n := |events| - 1;
      Chosen(events[..n], taken[..n]) + ChosenOne(events[n], taken[n])
  }

  ghost function ChosenOne(e: Event, taken: bool): seq<Part> {
    if taken && e.OneTick? && e.window.Some? then [e.window.value.part] else []
  }

  /** Everything published stays published, and exactly these windows were accepted. */
  ghost predicate Grew(before: History, after: History, more: seq<Part>) {
    before.placed <= after.placed && after.accepted == before.accepted + more
  }

  lemma GrewFurther(before: History, mid: History, after: History, a: seq<Part>, b: seq<Part>)
    requires Grew(before, mid, a) && Grew(mid, after, b)
    ensures Grew(before, after, a + b)
  {
    assert (before.accepted + a) + b == before.accepted + (a + b);
  }

  lemma ChosenNext(events: seq<Event>, i: nat, taken: seq<bool>, one: bool)
    requires i < |events| && |taken| == i
    ensures Chosen(events[..i + 1], taken + [one]) == Chosen(events[..i], taken) + ChosenOne(events[i], one)
  {
    assert events[..i + 1][..i] == events[..i] && (taken + [one])[..i] == taken;
  }

  // ---- Windows that a later start finds ----

  /** The windows gained: one of the time before, when it was found late, and those
      of the events that were taken. */
  ghost function Gained(events: seq<Event>, taken: seq<bool>, late: bool, torn: FileState): seq<Part>
    requires |events| == |taken| && (late ==> torn.TornAppend?)
  {
    (if late then [torn.part] else []) + Chosen(events, taken)
  }

  ghost predicate NoneFrom(taken: seq<bool>, k: nat) {
    forall j :: k <= j < |taken| ==> !taken[j]
  }

  /** The file may hold the window of event `doubt`, or the one of the time before;
      nothing was taken since. */
  ghost predicate InDoubt(events: seq<Event>, taken: seq<bool>, doubt: Option<nat>, late: bool,
                          torn: FileState, file: FileState)
    requires file.TornAppend?
  {
    match doubt
    case None => !late && file == torn && NoneFrom(taken, 0)
    case Some(k) => k < |events| && ChosenOne(events[k], true) == [file.part] && NoneFrom(taken, k)
  }

  lemma {:induction false} NoneChosen(events: seq<Event>, taken: seq<bool>)
    requires |events| == |taken| && NoneFrom(taken, 0)
    ensures Chosen(events, taken) == []
  {
    if events != [] {
      NoneChosen(events[..|events| - 1], taken[..|events| - 1]);
    }
  }

  lemma {:induction false} ChosenLate(events: seq<Event>, taken: seq<bool>, k: nat)
    requires |events| == |taken| && k < |events| && NoneFrom(taken, k)
    ensures Chosen(events, taken[k := true]) == Chosen(events, taken) + ChosenOne(events[k], true)
  {
    var n := |events| - 1;
    if k == n {
      assert taken[k := true][..n] == taken[..n];
    } else {
      ChosenLate(events[..n], taken[..n], k);
      assert taken[k := true][..n] == taken[..n][k := true];
    }
  }

  /** The window in doubt turns out to be there. */
  lemma FoundLate(events: seq<Event>, taken: seq<bool>, doubt: Option<nat>, late: bool,
                  torn: FileState, file: FileState) returns (taken': seq<bool>, late': bool)
    requires |events| == |taken| && (late ==> torn.TornAppend?)
    requires file.TornAppend? && InDoubt(events, taken, doubt, late, torn, file)
    ensures |taken'| == |taken| && (late' ==> torn.TornAppend?)
    ensures forall k :: 0 <= k < |taken| && taken[k] ==> taken'[k]
    ensures Gained(events, taken', late', torn) == Gained(events, taken, late, torn) + [file.part]
  {
    taken', late' := taken, late;
    match doubt
    case None =>
      late' := true;
      NoneChosen(events, taken);
    case Some(k) =>
      taken' := taken[k := true];
      ChosenLate(events, taken, k);
  }

  lemma GainedNext(events: seq<Event>, i: nat, taken: seq<bool>, one: bool, late: bool, torn: FileState)
    requires i < |events| && |taken| == i && (late ==> torn.TornAppend?)
    ensures Gained(events[..i + 1], taken + [one], late, torn)
      == Gained(events[..i], taken, late, torn) + ChosenOne(events[i], one)
  {
    ChosenNext(events, i, taken, one);
  }

  /** What was taken at once is flagged. */
  ghost predicate Flagged(outcomes: seq<TickOutcome>, taken: seq<bool>) {
    |taken| == |outcomes| && forall k :: 0 <= k < |outcomes| && outcomes[k].call.taken ==> taken[k]
  }

  lemma FlaggedNext(outcomes: seq<TickOutcome>, taken: seq<bool>, o: TickOutcome, next: seq<bool>)
    requires Flagged(outcomes, taken) && |next| == |taken| + 1 && next[|taken|] == o.call.taken
    requires forall k :: 0 <= k < |taken| && taken[k] ==> next[k]
    ensures Flagged(outcomes + [o], next)
  {
  }

  /** What one event does to the account and to the window in doubt. */
  ghost predicate Stepped(e: Event, before: History, after: History, file: FileState, next: FileState,
                          taken: bool, found: bool)
  {
    && !(taken && found) && (found ==> file.TornAppend?)
    && Grew(before, after, if found then [file.part] else ChosenOne(e, taken))
    && (next.TornAppend? ==>
          || (next == file && !taken && !found)
          || (ChosenOne(e, true) == [next.part] && !taken && !found))
  }

  /** The account of a run up to here. */
  ghost predicate Accounted(start: History, now: History, torn: FileState, file: FileState, events: seq<Event>,
                            taken: seq<bool>, doubt: Option<nat>, late: bool)
  {
    && |taken| == |events| && (late ==> torn.TornAppend?)
    && Grew(start, now, Gained(events, taken, late, torn))
    && (file.TornAppend? ==> InDoubt(events, taken, doubt, late, torn, file))
  }

  /** A run up to here: its account, its flags and its trace. */
  ghost predicate RunUpTo(c: Settings, start: History, now: History, torn: FileState, file: FileState,
                          events: seq<Event>, taken: seq<bool>, doubt: Option<nat>, late: bool,
                          outcomes: seq<TickOutcome>, trace: seq<State>)
  {
    && Accounted(start, now, torn, file, events, taken, doubt, late)
    && Flagged(outcomes, taken) && Traced(c, events, outcomes, trace)
  }

  lemma RunNext(c: Settings, start: History, before: History, after: History, torn: FileState, file: FileState,
                next: FileState, events: seq<Event>, i: nat, taken: seq<bool>, doubt: Option<nat>, late: bool,
                outcomes: seq<TickOutcome>, trace: seq<State>, o: TickOutcome, found: bool, state: State)
    returns (taken': seq<bool>, doubt': Option<nat>, late': bool)
    requires i < |events|
    requires RunUpTo(c, start, before, torn, file, events[..i], taken, doubt, late, outcomes, trace)
    requires Stepped(events[i], before, after, file, next, o.call.taken, found)
    requires Happened(c, trace[i], events[i], o, state)
    ensures RunUpTo(c, start, after, torn, next, events[..i + 1], taken', doubt', late',
                    outcomes + [o], trace + [state])
  {
    taken', doubt', late' := AccountedNext(
      start, before, after, torn, file, next, events, i, taken, doubt, late, o.call.taken, found);
    FlaggedNext(outcomes, taken, o, taken');
    TracedNext(c, events, i, outcomes, trace, o, state);
  }

  lemma AccountedNext(start: History, before: History, after: History, torn: FileState, file: FileState,
                      next: FileState, events: seq<Event>, i: nat, taken: seq<bool>, doubt: Option<nat>, late: bool,
                      one: bool, found: bool) returns (taken': seq<bool>, doubt': Option<nat>, late': bool)
    requires i < |events| && Accounted(start, before, torn, file, events[..i], taken, doubt, late)
    requires Stepped(events[i], before, after, file, next, one, found)
    ensures Accounted(start, after, torn, next, events[..i + 1], taken', doubt', late')
    ensures taken'[i] == one && forall k :: 0 <= k < i && taken[k] ==> taken'[k]
  {
    taken', doubt', late' := taken, doubt, late;
    var gained := Gained(events[..i], taken, late, torn);
    GrewFurther(start, before, after, gained, if found then [file.part] else ChosenOne(events[i], one));
    if found {
      taken', late' := FoundLate(events[..i], taken, doubt, late, torn, file);
    }
    GainedNext(events, i, taken', one, late', torn);
    if next.TornAppend? && next != file {
      doubt' := Some(i);
    }
    taken' := taken' + [one];
  }

  class Collector {
    ghost const initial: Tree
    const limits: Limits

    ghost const rules: Rules
    const maxBytes: u64
    const maxAge: nat
    const journal: Journal
    var tree: Tree

    /** The segment state of the running process; its ledger is an object. */
    var segment: SegmentState
    var admission: SegmentAdmission
    var running: bool

    ghost var history: History

    /** Journals of earlier processes that no start could settle, and their windows
        in the order of their acceptance. */
    var evidence: seq<Evidence>
    ghost var group: seq<Part>

    /** The windows that still have to be settled, unless they repeat a segment. */
    ghost function Group(): seq<Part>
      reads this, journal
    {
      if evidence == [] then journal.parts else group
    }

    ghost function Snap(): Snapshot
      reads this, journal
    {
      Snapshot(history.placed, if history.repeated then [] else Group(), history.accepted)
    }

    /** The segment state describes the journal: the ledger counts its windows,
        and the first id is its identity. */
    ghost predicate Synced()
      reads this, journal, admission
    {
      && admission.limits == limits && rules.counts(admission.Account(), journal.parts)
      && segment.firstId == journal.segmentId && (segment.openedAt.Some? <==> segment.firstId.Some?)
    }

    /** What is not settled could be sealed under its first window's timestamp. */
    ghost predicate Sealable()
      reads this, journal
    {
      && rules.fits(Group())
      && (Group() != [] ==> IsSegmentId(Group()[0].ts))
      && (journal.parts != [] ==> Group() != [] && journal.segmentId == Some(Group()[0].ts))
    }

    /** A window whose rollback failed would still fit, under the same identity. */
    ghost predicate Doubtful()
      reads this, journal
    {
      journal.file.TornAppend? ==>
        var all := journal.parts + [journal.file.part];
        && evidence == [] && !history.repeated
        && rules.fits(all) && IsSegmentId(journal.file.id) && journal.file.id == all[0].ts
    }

    /** Whatever evidence and journal hold are windows of the group in their order. */
    ghost predicate Recoverable()
      reads this, journal
    {
      evidence != [] ==>
        && !running && group != [] && Storable(group, journal.maxLen)
        && (journal.parts != [] ==> rules.among(journal.parts, group))
        && forall i :: 0 <= i < |evidence| ==> evidence[i].id == group[0].ts && rules.among(evidence[i].frames, group)
    }

    /** The windows were published last. */
    ghost predicate LastPublished()
      reads this, journal
    {
      && Group() != [] && Last(history.placed).Some?
      && Last(history.placed).value.Segment? && Last(history.placed).value.frames == Group()
      && (evidence == [] ==> Last(history.placed).value.parts == journal.parts)
    }

    ghost predicate Valid()
      reads this, journal, admission
    {
      && RulesOf(limits, initial, rules)
      && journal.Valid() && Sealable() && Doubtful() && Recoverable()
      && rules.books(tree, Snap())
      && (history.repeated ==> LastPublished())
      && (journal.file == ResetCommitted || journal.file == TornReset ==> history.repeated || evidence != [])
      && (running ==> segment.publishedPendingReset == history.repeated)
      && (running && !segment.publishedPendingReset ==> Synced())
    }

    constructor (limits: Limits, tree: Tree, maxBytes: u64, maxAge: nat, maxLen: nat)
      requires Sound(limits) && JOURNAL_HEADER_LEN <= maxLen <= USIZE_MAX
      ensures Valid() && fresh(journal) && fresh(admission)
      ensures running && !segment.publishedPendingReset && !journal.poisoned
      ensures Snap() == Snapshot([], [], []) && history.accepted == [] && this.tree == tree == initial
      ensures this.limits == limits && this.maxBytes == maxBytes && this.maxAge == maxAge && journal.maxLen == maxLen
    {
      initial, this.tree := tree, tree;
      rules := MakeRules(limits, tree);
      this.limits, this.maxBytes, this.maxAge := limits, maxBytes, maxAge;
      journal := new Journal(maxLen);
      segment := SegmentState(None, None, false);
      admission := new SegmentAdmission(limits);
      running := true;
      history := History([], [], false);
      evidence, group := [], [];
      new;
      NothingContained(limits);
      assert rules.fits([]) by {
        assert ContentsFit(limits, []);
      }
      assert rules.counts(admission.Account(), []) by {
        assert LedgerCounts(limits, admission.Account(), []);
      }
      assert rules.books(tree, Snapshot([], [], [])) by {
        assert Books(rules.fits, initial, tree, Snapshot([], [], []));
      }
      assert Snap() == Snapshot([], [], []);
    }

    /** No call before this state left another window in doubt. */
    twostate predicate NoNewDoubt()
      reads journal
    {
      journal.file.TornAppend? ==> journal.file == old(journal.file)
    }

    twostate predicate DoubtsOnly(part: Part)
      reads journal
    {
      journal.file.TornAppend? ==> journal.file == old(journal.file) || journal.file.part == part
    }

    /** The first half of `seal_open_segment`: from here on the journal repeats
        what was published. */
    method Publish(written: bool) returns (r: Result<int, CollectorError>)
      requires Valid() && running && !segment.publishedPendingReset
      modifies this
      ensures Valid() && running && admission == old(admission)
      ensures r.Ok? <==> old(CanSeal(journal.parts, journal.poisoned, tree, written))
      ensures segment.publishedPendingReset <==> r.Ok?
      ensures Snap() == (if r.Ok? then old(Closed(Snap())) else old(Snap()))
      ensures tree == (if r.Ok? then old(tree[journal.parts[0].ts := journal.parts]) else old(tree))
      ensures r.Ok? ==> r.value == old(journal.parts[0].ts)
      ensures r.Err? ==> r.error.NoOpenSegment? || r.error.SealFailed?
      ensures segment == old(segment).(publishedPendingReset := r.Ok?)
    {
      if segment.firstId.None? {
        return Err(NoOpenSegment);
      }
      var id := segment.firstId.value;
      var sealed, next := Seal(journal.parts, journal.segmentId, journal.poisoned, id, tree, written);
      if sealed.Err? {
        return Err(SealFailed(sealed.error));
      }
      ghost var after := Closed(Snap());
      SealStep(limits, initial, rules, tree, Snap());
      tree, segment := next, segment.(publishedPendingReset := true);
      history := History(history.placed + [SegmentOf(journal.parts)], history.accepted, true);
      assert Snap() == after;
      r := Ok(id);
    }

    /** The second half: only a reset that succeeds opens the journal again. */
    method ResetPublished(marker: Write, emptied: bool) returns (r: Result<(), CollectorError>)
      requires Valid() && running && segment.publishedPendingReset
      modifies this, journal
      ensures Valid() && running && (admission == old(admission) || fresh(admission))
      ensures NoNewDoubt()
      ensures r.Ok? <==> !old(journal.poisoned) && marker == Durable && emptied
      ensures segment.publishedPendingReset <==> r.Err?
      ensures Snap() == old(Snap()) && tree == old(tree)
      ensures r.Ok? ==> journal.parts == [] && !journal.poisoned
      ensures r.Err? ==> r.error.ResetFailed?
      ensures r.Err? ==> journal.parts == old(journal.parts) && admission == old(admission)
      ensures r.Err? ==> segment == old(segment).(publishedPendingReset := segment.publishedPendingReset)
    {
      var reset := journal.Reset(marker, emptied);
      if reset.Err? {
        return Err(ResetFailed(reset.error));
      }
      NothingContained(limits);
      segment := SegmentState(None, None, false);
      admission := new SegmentAdmission(limits);
      assert LedgerCounts(limits, admission.Account(), journal.parts);
      history := history.(repeated := false);
      r := Ok(());
    }

    /** `seal_open_segment`: publishes the journal and then resets it. */
    method SealOpenSegment(f: SealFaults) returns (r: Result<int, CollectorError>)
      requires Valid() && running && !segment.publishedPendingReset
      modifies this, journal
      ensures Valid() && running && (admission == old(admission) || fresh(admission))
      ensures NoNewDoubt()
      ensures var sealed := old(CanSeal(journal.parts, journal.poisoned, tree, f.written));
        && (r.Ok? <==> sealed && f.marker == Durable && f.emptied)
        && (segment.publishedPendingReset <==> sealed && r.Err?)
        && (r.Err? ==> (r.error.ResetFailed? <==> sealed))
        && Snap() == (if sealed then old(Closed(Snap())) else old(Snap()))
        && tree == (if sealed then old(tree[journal.parts[0].ts := journal.parts]) else old(tree))
      ensures r.Ok? ==> journal.parts == [] && !journal.poisoned && r.value == old(journal.parts[0].ts)
      ensures r.Err? ==> journal.parts == old(journal.parts) && admission == old(admission)
      ensures r.Err? ==> segment == old(segment).(publishedPendingReset := segment.publishedPendingReset)
      ensures old(GoesOn()) ==> (GoesOn() <==> !old(CanSeal(journal.parts, journal.poisoned, tree, f.written)) || r.Ok?)
      ensures r.Ok? ==> Here() == old(Shut(Here()))
      ensures r.Err? && !segment.publishedPendingReset ==> Here() == old(Here()) && unchanged(journal)
    {
      r := Publish(f.written);
      if r.Ok? {
        var reset := ResetPublished(f.marker, f.emptied);
        if reset.Err? {
          r := Err(reset.error);
        }
      }
    }

    // ---- The open segment as a value ----

    ghost function Here(): OpenSegment
      reads this, journal
    {
      OpenSegment(journal.parts, tree, segment.openedAt)
    }

    ghost function Config(): Settings {
      Settings(rules.fits, rules.compatible, CapacityErrors(limits), journal.maxLen, maxBytes, maxAge)
    }

    /** The process can go on after this call. */
    ghost predicate GoesOn()
      reads this, journal
    {
      !segment.publishedPendingReset && !journal.poisoned
    }

    // ---- Appending a window ----

    function IdFor(part: Part): Option<int>
      reads this
    {
      if segment.firstId.Some? then segment.firstId else if IsSegmentId(part.ts) then Some(part.ts) else None
    }

    /** The running process may append: nothing published is waiting for a reset. */
    ghost predicate Open()
      reads this, journal, admission
    {
      Valid() && running && !segment.publishedPendingReset
    }

    /** No journal that an open collector holds refuses a window for the number of
        its parts: the limit on sections is reached long before. */
    lemma PartsNeverRunOut()
      requires Valid()
      ensures |journal.parts| < MAX_JOURNAL_PARTS
    {
      if journal.parts != [] {
        if evidence != [] {
          AmongFits(limits, initial, rules, journal.parts, group);
        }
        assert ContentsFit(limits, journal.parts);
        PartsAreFew(limits, journal.parts);
      }
    }

    /** What the journal says to the window under the id it would get. */
    ghost predicate Takes(part: Part, write: Write)
      reads this, journal
    {
      IdFor(part).Some? && journal.Refusal(IdFor(part).value, part).None? && write == Durable
    }

    lemma TakesMeansAccepts(part: Part, write: Write)
      requires Open() && GoesOn()
      ensures Takes(part, write) <==> Accepts(Config(), journal.parts, part) && write == Durable
    {
      PartsNeverRunOut();
    }

    /** Between the append and the commit of its delta the journal is one window
        ahead of the account and of the segment state. */
    ghost predicate Ahead(live: seq<Part>, part: Part)
      reads this, journal, admission
    {
      && RulesOf(limits, initial, rules) && running && !segment.publishedPendingReset
      && evidence == [] && !history.repeated
      && journal.Valid() && journal.file == Frames && journal.parts == live + [part]
      && IsSegmentId(journal.parts[0].ts) && journal.segmentId == Some(journal.parts[0].ts)
      && admission.limits == limits && rules.counts(admission.Account(), live)
      && segment.firstId == (if live == [] then None else journal.segmentId)
      && (segment.openedAt.Some? <==> segment.firstId.Some?)
      && rules.fits(live + [part]) && rules.books(tree, Snapshot(history.placed, live, history.accepted))
    }

    /** The window is written under the open segment's id, or as the first one of a
        new segment. A failing rollback leaves it in doubt. */
    method WritePart(part: Part, write: Write) returns (r: Result<nat, CollectorError>)
      requires Open() && rules.fits(journal.parts + [part])
      modifies journal
      ensures r.Ok? <==> old(Takes(part, write))
      ensures r.Ok? ==> Ahead(old(journal.parts), part)
      ensures r.Err? ==> Open() && Snap() == old(Snap()) && journal.parts == old(journal.parts)
      ensures DoubtsOnly(part)
      ensures r.Err? && r.error.AppendFailed? && r.error.journal.Full? ==>
        !HasRoom(journal.parts, part, journal.maxLen) && !journal.poisoned
      ensures r.Err? && old(IdFor(part)).Some? && old(journal.Refusal(IdFor(part).value, part)).Some? ==>
        r.error == AppendFailed(old(journal.Refusal(IdFor(part).value, part)).value)
      ensures r.Err? && write != RollbackFails ==> unchanged(journal)
    {
      if segment.firstId.None? && !IsSegmentId(part.ts) {
        return Err(TimestampOutOfRange);
      }
      var id := if segment.firstId.Some? then segment.firstId.value else part.ts;
      var appended := journal.Append(id, part, write);
      r := if appended.Ok? then Ok(appended.value) else Err(AppendFailed(appended.error));
    }

    /** Its delta is committed, and it is registered in the segment state. */
    method RegisterPart(ghost live: seq<Part>, part: Part, delta: AdmissionDelta, now: nat)
      requires Ahead(live, part) && rules.leads(live, part, delta)
      modifies this, admission
      ensures Open() && admission == old(admission) && tree == old(tree)
      ensures Snap() == Appended(Snapshot(old(history).placed, live, old(history).accepted), part)
      ensures segment.openedAt == (if live == [] then Some(now) else old(segment.openedAt))
    {
      CommitPart(limits, initial, rules, admission, live, part, delta);
      AppendStep(limits, initial, rules, tree, Snapshot(history.placed, live, history.accepted), part);
      history := History(history.placed, history.accepted + [part], false);
      if segment.firstId.None? {
        segment := SegmentState(journal.segmentId, Some(now), false);
      }
    }

    /** The append: the journal takes the window, or nothing changes but its file. */
    method TakePart(part: Part, delta: AdmissionDelta, write: Write, now: nat) returns (r: Result<nat, CollectorError>)
      requires Open() && rules.leads(journal.parts, part, delta) && rules.fits(journal.parts + [part])
      modifies this, journal, admission
      ensures Open() && admission == old(admission) && tree == old(tree)
      ensures r.Ok? <==> old(Takes(part, write))
      ensures r.Ok? ==> journal.parts == old(journal.parts) + [part] && !journal.poisoned
      ensures r.Ok? ==> Snap() == old(Appended(Snap(), part))
      ensures r.Ok? ==> segment.openedAt == (if old(journal.parts) == [] then Some(now) else old(segment.openedAt))
      ensures r.Err? ==> Snap() == old(Snap()) && journal.parts == old(journal.parts) && segment == old(segment)
      ensures r.Err? ==> unchanged(admission)
      ensures DoubtsOnly(part)
      ensures r.Err? && r.error.AppendFailed? && r.error.journal.Full? ==>
        !HasRoom(journal.parts, part, journal.maxLen) && !journal.poisoned
      ensures r.Err? && old(IdFor(part)).Some? && old(journal.Refusal(IdFor(part).value, part)).Some? ==>
        r.error == AppendFailed(old(journal.Refusal(IdFor(part).value, part)).value)
      ensures r.Err? && write != RollbackFails ==> unchanged(journal)
      ensures r.Ok? ==> Here() == old(Taken(Here(), part, now))
    {
      ghost var live := journal.parts;
      r := WritePart(part, write);
      if r.Ok? {
        RegisterPart(live, part, delta, now);
      }
    }

    /** The window contradicts no dictionary id of the open segment, and the limits
        report a lack of room as such. */
    ghost predicate Explained(part: Part)
      reads this, journal
    {
      CapacityErrors(limits) && rules.compatible(journal.parts + [part])
    }

    /** The limits of one segment ask for a seal, and nothing is in its way. */
    ghost predicate LimitSeals(part: Part, f: SealFaults)
      reads this, journal
    {
      !rules.fits(journal.parts + [part]) && rules.fits([part]) && NameFree(Here()) && f.written
    }

    /** A window that cannot join the open segment is proved to fit alone, and then
        that segment is sealed. */
    method MakeRoom(part: Part, f: SealFaults)
      returns (r: Result<(AdmissionDelta, int), CollectorError>, ghost early: bool)
      requires Open() && IsWindow(part.window) && journal.parts != []
      modifies this, journal
      ensures Valid() && running && (admission == old(admission) || fresh(admission))
      ensures NoNewDoubt()
      ensures early <==> rules.fits([part]) && old(CanSeal(journal.parts, journal.poisoned, tree, f.written))
      ensures r.Ok? <==> early && f.Resets()
      ensures r.Ok? ==> rules.leads([], part, r.value.0) && r.value.1 == old(journal.parts)[0].ts
      ensures r.Ok? ==> Open() && GoesOn() && Here() == old(Shut(Here()))
      ensures early && r.Err? ==> segment.publishedPendingReset
      ensures !early ==> unchanged(journal) && segment == old(segment) && tree == old(tree)
      ensures Snap() == if early then old(Closed(Snap())) else old(Snap())
      ensures r.Err? ==> admission == old(admission)
    {
      early := false;
      var alone := AssessAlone(limits, initial, rules, part);
      if alone.Err? {
        return Err(WindowTooLarge(alone.error)), early;
      }
      early := CanSeal(journal.parts, journal.poisoned, tree, f.written);
      var dest := SealOpenSegment(f);
      r := if dest.Ok? then Ok((alone.value, dest.value)) else Err(dest.error);
    }

    /** `prepare_window_admission`: a window that does not fit on top of the open
        segment is proved to fit by itself before that segment is sealed. */
    method PrepareWindowAdmission(part: Part, f: SealFaults)
      returns (r: Result<AdmissionDelta, CollectorError>, sealed: seq<(int, Reason)>, ghost early: bool)
      requires Open() && IsWindow(part.window)
      modifies this, journal
      ensures Valid() && running && (admission == old(admission) || fresh(admission))
      ensures NoNewDoubt()
      ensures early ==> old(journal.parts) != [] && !old(rules.fits(journal.parts + [part])) && rules.fits([part])
      ensures Snap() == (if early then old(Closed(Snap())) else old(Snap()))
      ensures !early ==> admission == old(admission) && journal.parts == old(journal.parts)
      ensures !early ==> segment == old(segment) && tree == old(tree)
      ensures r.Ok? ==> Open() && rules.leads(journal.parts, part, r.value) && rules.fits(journal.parts + [part])
      ensures r.Ok? ==> rules.fits([part])
      ensures r.Ok? && early ==> journal.parts == [] && !journal.poisoned
      ensures r.Ok? ==> sealed == Notice(When(early, FormatLimit), old(journal.parts))
      ensures early ==> old(GoesOn() && LimitSeals(part, f))
      ensures old(GoesOn() && Explained(part) && LimitSeals(part, f)) ==> early
      ensures r.Ok? <==> old(rules.fits(journal.parts + [part])) || (early && f.Resets())
      ensures early && r.Ok? ==> Here() == old(Shut(Here()))
      ensures !early ==> unchanged(journal)
      ensures old(GoesOn()) ==> (GoesOn() <==> !early || r.Ok?)
    {
      sealed, early := [], false;
      assert [] + [part] == [part];
      var assessed := AssessPart(limits, initial, rules, admission, journal.parts, part);
      if assessed.Ok? {
        return Ok(assessed.value), sealed, early;
      }
      if !assessed.error.IsCapacity() || segment.firstId.None? {
        return Err(WindowRejected(assessed.error)), sealed, early;
      }
      var made;
      made, early := MakeRoom(part, f);
      if made.Err? {
        return Err(made.error), sealed, early;
      }
      sealed := [(made.value.1, FormatLimit)];
      r := Ok(made.value.0);
    }

    /** A full journal is sealed, after the window has again been proved to fit
        alone, and the append is tried once more. */
    method RetryAfterSeal(part: Part, full: SealFaults, retry: Write, now: nat)
      returns (r: Result<(), CollectorError>, sealed: seq<(int, Reason)>, ghost early: bool)
      requires Open() && IsWindow(part.window) && journal.parts != []
      modifies this, journal, admission
      ensures Valid() && running && (admission == old(admission) || fresh(admission))
      ensures DoubtsOnly(part)
      ensures early <==> rules.fits([part]) && old(CanSeal(journal.parts, journal.poisoned, tree, full.written))
      ensures r.Ok? <==> early && full.Resets() && Accepts(Config(), [], part) && retry == Durable
      ensures Snap() == AfterAppend(old(BeforeAppend(Snap(), early)), part, r.Ok?, false)
      ensures r.Ok? ==> Open() && GoesOn() && Here() == old(Taken(Shut(Here()), part, now))
      ensures r.Ok? ==> sealed == Notice(Some(JournalFull), old(journal.parts))
      ensures r.Err? && early && GoesOn() ==> Here() == old(Shut(Here()))
      ensures !early ==> unchanged(journal) && segment == old(segment) && tree == old(tree)
      ensures old(GoesOn()) && full.Resets() && retry != RollbackFails ==> GoesOn()
    {
      sealed, early := [], false;
      var made;
      made, early := MakeRoom(part, full);
      if made.Err? {
        return Err(made.error), sealed, early;
      }
      sealed := [(made.value.1, JournalFull)];
      assert [] + [part] == [part] && Snap() == old(Closed(Snap()));
      TakesMeansAccepts(part, retry);
      var second := TakePart(part, made.value.0, retry, now);
      r := if second.Ok? then Ok(()) else Err(second.error);
    }

    /** The journal asks for a seal, and nothing is in its way. */
    ghost predicate RoomSeals(part: Part, f: Faults)
      reads this, journal
    {
      Acceptable(part) && !HasRoom(journal.parts, part, journal.maxLen) && NameFree(Here()) && f.full.written
    }

    /** The append itself, to an open segment that may have no room left. */
    method AppendAdmitted(part: Part, delta: AdmissionDelta, f: Faults)
      returns (r: Result<(), CollectorError>, sealed: seq<(int, Reason)>, ghost early: bool)
      requires Open() && IsWindow(part.window)
      requires rules.leads(journal.parts, part, delta) && rules.fits(journal.parts + [part]) && rules.fits([part])
      modifies this, journal, admission
      ensures Valid() && running && (admission == old(admission) || fresh(admission))
      ensures DoubtsOnly(part)
      ensures early ==> old(journal.parts) != [] && rules.fits([part])
      ensures old(GoesOn()) ==> (early <==> old(RoomSeals(part, f)))
      ensures old(GoesOn()) ==>
        (r.Ok? <==> if HasRoom(old(journal.parts), part, journal.maxLen)
                    then Accepts(Config(), old(journal.parts), part) && f.append == Durable
                    else early && f.full.Resets() && Accepts(Config(), [], part) && f.retry == Durable)
      ensures Snap() == AfterAppend(old(BeforeAppend(Snap(), early)), part, r.Ok?, false)
      ensures r.Ok? ==> old(GoesOn()) && Open() && GoesOn()
      ensures r.Ok? || GoesOn() || !early ==>
        Here() == AfterTaking(old(Here()), part, Outcome(early, r.Ok?, false), f.now)
      ensures r.Ok? ==> sealed == Notice(When(early, JournalFull), old(journal.parts))
      ensures r.Err? && !early ==> segment == old(segment)
      ensures old(GoesOn()) && f.Sound() ==> GoesOn()
    {
      sealed, early := [], false;
      PartsNeverRunOut();
      if GoesOn() {
        TakesMeansAccepts(part, f.append);
      }
      var first := TakePart(part, delta, f.append, f.now);
      if first.Ok? {
        return Ok(()), sealed, early;
      }
      if !(first.error.AppendFailed? && first.error.journal.Full?) || segment.firstId.None? {
        return Err(first.error), sealed, early;
      }
      r, sealed, early := RetryAfterSeal(part, f.full, f.retry, f.now);
    }

    /** What a seal before the append is announced with. */
    ghost function EarlyReason(part: Part): Reason
      reads this, journal
    {
      if rules.fits(journal.parts + [part]) then JournalFull else FormatLimit
    }

    /** Admission and append: the open segment is sealed first exactly when it and
        the window do not fit together. */
    method AppendWindow(part: Part, f: Faults)
      returns (r: Result<(), CollectorError>, sealed: seq<(int, Reason)>, ghost early: bool)
      requires Open() && IsWindow(part.window)
      modifies this, journal, admission
      ensures Valid() && running && (admission == old(admission) || fresh(admission))
      ensures DoubtsOnly(part)
      ensures early ==> old(journal.parts) != []
      ensures old(GoesOn()) && early ==> SealsBefore(Config(), old(Here()), part, f)
      ensures old(GoesOn()) && r.Ok? ==> IsTaken(Config(), old(Here()), part, f)
      ensures old(GoesOn()) && Decided(Config(), old(Here()), part) ==>
        && (early <==> SealsBefore(Config(), old(Here()), part, f))
        && (r.Ok? <==> IsTaken(Config(), old(Here()), part, f))
      ensures Snap() == AfterAppend(old(BeforeAppend(Snap(), early)), part, r.Ok?, false)
      ensures r.Ok? ==> old(GoesOn()) && Open() && GoesOn()
      ensures r.Ok? || GoesOn() || !early ==>
        Here() == AfterTaking(old(Here()), part, Outcome(early, r.Ok?, false), f.now)
      ensures r.Ok? ==> sealed == Notice(When(early, old(EarlyReason(part))), old(journal.parts))
      ensures !rules.fits([part]) ==> r.Err? && !early
      ensures r.Err? && !early ==> segment == old(segment)
      ensures old(GoesOn()) && f.Sound() ==> GoesOn()
    {
      var admitted, sealedForLimit, limit := PrepareWindowAdmission(part, f.early);
      sealed, early := sealedForLimit, limit;
      if admitted.Err? {
        return Err(admitted.error), sealed, early;
      }
      ghost var full;
      var sealedForRoom;
      ghost var mid := Snap();
      assert mid == BeforeAppend(old(Snap()), limit) && (limit ==> mid.live == []);
      r, sealedForRoom, full := AppendAdmitted(part, admitted.value, f);
      assert !(limit && full) && BeforeAppend(mid, full) == BeforeAppend(old(Snap()), limit || full);
      OneReason(r.Ok?, limit, full, old(journal.parts), sealedForLimit, sealedForRoom);
      sealed, early := sealedForLimit + sealedForRoom, limit || full;
    }

    /** Seals the segment that the window joined when a reason says so. */
    method CloseIfDue(sealed: seq<(int, Reason)>, forced: bool, f: SealFaults, now: nat)
      returns (r: Result<seq<(int, Reason)>, CollectorError>, ghost closed: bool, ghost why: Option<Reason>)
      requires Open() && journal.parts != [] && !journal.poisoned
      modifies this, journal
      ensures Valid() && running && (admission == old(admission) || fresh(admission))
      ensures !journal.file.TornAppend?
      ensures Because(Config(), old(Here()), forced, now, why)
      ensures closed <==> why.Some? && old(NameFree(Here())) && f.written
      ensures r.Ok? <==> (why.Some? ==> closed && f.Resets())
      ensures Snap() == (if closed then old(Closed(Snap())) else old(Snap()))
      ensures r.Ok? ==> Open() && r.value == sealed + Notice(why, old(journal.parts))
      ensures GoesOn() <==> !closed || r.Ok?
      ensures GoesOn() ==> Here() == if closed then old(Shut(Here())) else old(Here())
    {
      closed := false;
      var reason := SealReason(forced, journal.end, maxBytes, AgeExpired(segment.openedAt, now, maxAge));
      why := reason;
      if reason.None? {
        return Ok(sealed), closed, why;
      }
      closed := CanSeal(journal.parts, journal.poisoned, tree, f.written);
      var dest := SealOpenSegment(f);
      r := if dest.Ok? then Ok(sealed + [(dest.value, reason.value)]) else Err(dest.error);
    }

    /** `append_window_and_maybe_seal`. The window is taken once or not at all; the
        open segment is sealed before it exactly when the two do not fit together,
        and after it exactly when a reason says so. A window that does not fit by
        itself changes nothing. */
    method AppendWindowAndMaybeSeal(part: Part, forced: bool, f: Faults)
      returns (r: Result<seq<(int, Reason)>, CollectorError>, ghost o: Outcome, ghost why: Option<Reason>)
      requires Valid() && running && IsWindow(part.window)
      modifies this, journal, admission
      ensures Valid() && running && (admission == old(admission) || fresh(admission))
      ensures DoubtsOnly(part) && (o.taken ==> !journal.file.TornAppend?)
      ensures (o.early ==> old(Snap()).live != []) && (o.closed ==> o.taken)
      ensures old(Open() && GoesOn()) ==>
        Called(Config(), old(Here()), Collected(part, forced, f), o, why, r.Ok?)
      ensures Snap() == AfterAppend(old(BeforeAppend(Snap(), o.early)), part, o.taken, o.closed)
      ensures old(Open() && GoesOn()) && GoesOn() ==> Here() == AfterCall(old(Here()), part, o, f.now)
      ensures old(Open() && GoesOn()) && f.Sound() ==> GoesOn()
      ensures r.Ok? ==> old(Open() && GoesOn()) && Open() && GoesOn() && o.taken
      ensures r.Ok? ==>
        var joined := LiveAfter(old(journal.parts), part, o.early, true);
        r.value == Notice(When(o.early, old(EarlyReason(part))), old(journal.parts)) + Notice(why, joined)
      ensures old(segment.publishedPendingReset) ==> r == Err(RestartRequired)
      ensures old(segment.publishedPendingReset) || !rules.fits([part]) ==>
        && r.Err? && !o.early && !o.taken
        && journal.parts == old(journal.parts) && segment == old(segment) && tree == old(tree)
    {
      o, why := Outcome(false, false, false), None;
      if segment.publishedPendingReset {
        return Err(RestartRequired), o, why;
      }
      var appended, sealed, early := AppendWindow(part, f);
      if appended.Err? {
        return Err(appended.error), Outcome(early, false, false), why;
      }
      ghost var closed;
      r, closed, why := CloseIfDue(sealed, forced, f.final, f.now);
      o := Outcome(early, true, closed);
    }

    // ---- Whole runs ----

    /** Between ticks a running process has nothing pending and a sound journal:
        `stop_if_persistence_unhealthy` ends it otherwise. */
    ghost predicate Healthy()
      reads this, journal, admission
    {
      Valid() && (running ==> !segment.publishedPendingReset && !journal.poisoned)
    }

    /** The identity of whatever a start has to settle. */
    ghost function Id(): int
      reads this, journal
    {
      if evidence != [] && group != [] then group[0].ts
      else if journal.Identity().Some? then journal.Identity().value
      else 0
    }

    /** A window that no call reported as appended, but that the file holds. */
    ghost function Found(finished: bool): Option<Part>
      reads this, journal
    {
      if journal.file.TornAppend? && finished then Some(journal.file.part) else None
    }

    /** What recovery leaves alone. */
    twostate predicate Aside()
      reads this, journal, admission
    {
      && Valid() && !running && group == old(group)
      && segment == old(segment) && admission == old(admission) && unchanged(admission)
    }

    lemma FoundKeepsBooks(finished: bool)
      requires Valid()
      ensures rules.books(tree, Reread(Snap(), Found(finished)))
    {
      if Found(finished).Some? {
        AppendStep(limits, initial, rules, tree, Snap(), journal.file.part);
      }
    }

    /** What the file of the only journal holds could be sealed as well. */
    lemma PhysicalIsSealable(finished: bool)
      requires Valid() && evidence == []
      ensures var frames := journal.Physical(finished);
        && rules.fits(frames) && Storable(frames, journal.maxLen) && rules.among(frames, frames)
        && (frames != [] ==> journal.Identity() == Some(frames[0].ts) && IsSegmentId(frames[0].ts))
        && (history.repeated ==> LastPublished() && frames == journal.parts)
        && Reread(Snap(), Found(finished)).live == (if history.repeated then [] else frames)
    {
      AmongSelf(limits, initial, rules, journal.Physical(finished));
    }

    /** The new process opens the active journal. */
    method Reload(finished: bool)
      requires Valid() && !running
      modifies this, journal
      ensures Aside() && !journal.poisoned && tree == old(tree) && evidence == old(evidence)
      ensures Snap() == old(Reread(Snap(), Found(finished)))
      ensures journal.parts == old(journal.Readable(finished))
      ensures journal.parts != [] ==> Id() == old(Id())
      ensures evidence != [] ==> Id() == old(Id())
    {
      FoundKeepsBooks(finished);
      NothingFitsHere();
      ghost var found := Found(finished);
      journal.Reopen(finished);
      history := History(
        history.placed, if found.Some? then history.accepted + [found.value] else history.accepted,
        history.repeated && (evidence != [] || journal.parts != []));
    }

    /** A published group stands in the tree under its identity. */
    lemma PublishedStands()
      requires Valid() && history.repeated
      ensures Standing(tree, Group()[0].ts) == Some(Last(history.placed).value.parts)
    {
      LastInTree(limits, initial, rules, tree, Snap());
    }

    /** The seal of a recovery: the journal's own id decides the name. When the group
        is published already, the segment in the tree must be the same. */
    method PublishRecovered(written: bool) returns (r: Result<(), CollectorError>)
      requires Valid() && !running && journal.parts != [] && !journal.poisoned
      modifies this
      ensures Aside() && evidence == old(evidence)
      ensures r.Ok? <==> written && Free(old(Standing(tree, Group()[0].ts)), journal.parts)
      ensures Snap() == old(Salvage(Snap(), if r.Ok? then Some(journal.parts) else None))
      ensures tree == if r.Ok? then old(tree[Group()[0].ts := journal.parts]) else old(tree)
      ensures r.Ok? ==> history.repeated
    {
      var id := journal.segmentId.value;
      var sealed, next := Seal(journal.parts, journal.segmentId, false, id, tree, written);
      if sealed.Err? {
        return Err(SealFailed(sealed.error));
      }
      if history.repeated {
        PublishedStands();
        assert next == tree;
      } else {
        AmongSelf(limits, initial, rules, journal.parts);
        SalvageStep(limits, initial, rules, tree, Snap(), journal.parts);
      }
      ghost var after := Salvage(Snap(), Some(journal.parts));
      tree, history := next, History(after.placed, after.accepted, true);
      assert Snap() == after;
      r := Ok(());
    }

    /** `seal_recovered_journal`: seals and resets what the journal holds. Every
        window brought a section, so a journal made only of empty parts does not
        occur. */
    method SealRecovered(f: SealFaults) returns (r: Result<(), CollectorError>)
      requires Valid() && !running && journal.parts != [] && !journal.poisoned
      modifies this, journal
      ensures Aside() && evidence == old(evidence)
      ensures var claim := old(Standing(tree, Group()[0].ts));
        var sealed := f.written && Free(claim, old(journal.parts));
        && (r.Ok? <==> sealed && f.Resets())
        && Snap() == old(Salvage(Snap(), if sealed then Some(journal.parts) else None))
        && tree == (if sealed then old(tree[Group()[0].ts := journal.parts]) else old(tree))
        && (r.Err? ==> (journal.poisoned <==> sealed && f.marker != RolledBack))
      ensures r.Ok? ==> journal.parts == [] && !journal.poisoned
      ensures r.Err? ==> journal.parts == old(journal.parts) && Group() == old(Group()) && !journal.file.TornAppend?
    {
      r := PublishRecovered(f.written);
      if r.Err? {
        return;
      }
      NothingFitsHere();
      var reset := journal.Reset(f.marker, f.emptied);
      if reset.Err? {
        return Err(ResetFailed(reset.error));
      }
      history := history.(repeated := evidence != []);
    }

    /** Frames that were replayed but not sealed are reset away; the evidence still
        has them. */
    method DiscardReplayed(f: SealFaults) returns (r: Result<(), CollectorError>)
      requires Valid() && !running && journal.parts != [] && evidence != [] && !journal.file.TornAppend?
      modifies journal
      ensures Aside() && Snap() == old(Snap())
      ensures r.Ok? <==> !old(journal.poisoned) && f.Resets()
      ensures r.Ok? ==> journal.parts == [] && !journal.poisoned
      ensures r.Err? ==> journal.parts == old(journal.parts) && !journal.file.TornAppend?
      ensures r.Err? ==> (journal.poisoned <==> old(journal.poisoned) || f.marker != RolledBack)
    {
      var reset := journal.Reset(f.marker, f.emptied);
      r := if reset.Ok? then Ok(()) else Err(ResetFailed(reset.error));
    }

    method ReplayEvidence(e: Evidence, a: Attempt) returns (whole: bool)
      requires Valid() && !running && evidence != [] && e in evidence && journal.parts == [] && !journal.poisoned
      modifies journal
      ensures Aside() && Snap() == old(Snap()) && !journal.poisoned && journal.file == Frames
      ensures whole <==> Try(e.frames, a).Whole()
      ensures journal.parts == Try(e.frames, a).Replayed()
    {
      ReplayedIsAmong(limits, initial, rules, group, Try(e.frames, a), journal.maxLen);
      whole := ReplayInto(journal, e.id, Verified(e.frames, a.verified), a.breaks);
    }

    /** `recover_evidence`: verified frames are replayed into the fresh journal, and
        that is sealed or, failing this, reset. */
    method TryEvidence(e: Evidence, a: Attempt) returns (r: Result<(), CollectorError>)
      requires Valid() && !running && evidence != [] && e in evidence && journal.parts == [] && !journal.poisoned
      modifies this, journal
      ensures Aside() && evidence == old(evidence)
      ensures var t, claim := Try(e.frames, a), old(Standing(tree, Id()));
        && (r.Ok? <==> t.Clears(claim))
        && Snap() == old(Salvage(Snap(), t.Sealed(claim)))
        && Standing(tree, old(Id())) == t.After(claim)
        && (t.Seals(claim) ==> AllVerified(Standing(tree, old(Id())).value, e.frames, a.verified))
      ensures r.Ok? ==> journal.parts == [] && !journal.poisoned
    {
      VerifiedIsExact(e.frames, a.verified);
      var whole := ReplayEvidence(e, a);
      if journal.parts == [] {
        return Ok(());
      }
      if whole {
        r := SealRecovered(a.seal);
        if r.Err? {
          r := DiscardReplayed(a.discard);
          if r.Err? {
            r := DiscardReplayed(a.again);
          }
        }
      } else {
        r := DiscardReplayed(a.again);
      }
    }

    /** The evidence goes into quarantine; with the last of it, the windows that no
        attempt has published. */
    method QuarantineEvidence(ghost gone: Evidence, left: seq<Evidence>)
      requires Valid() && !running && evidence != [] && journal.parts == [] && !journal.poisoned
      requires evidence == [gone] + left || evidence == left + [gone]
      modifies this
      ensures Aside() && tree == old(tree) && evidence == left
      ensures Snap() == if left == [] then old(Quarantine(Snap())) else old(Snap())
    {
      ghost var after := Quarantine(Snap());
      NothingFitsHere();
      assert forall i :: 0 <= i < |left| ==> left[i] in evidence;
      if left == [] {
        if !history.repeated {
          QuarantineStep(limits, initial, rules, tree, Snap());
        }
        history := History(after.placed, after.accepted, false);
      }
      evidence := left;
    }

    /** `recover_active_journal`: the journal is rotated away, and its frames are
        tried as evidence. */
    method RecoverActiveJournal(f: Recovery) returns (r: Result<(), CollectorError>)
      requires Valid() && !running
      modifies this, journal
      ensures Valid() && !running && segment == old(segment) && admission == old(admission) && unchanged(admission)
      ensures !f.rotated ==> r.Err? && unchanged(this) && unchanged(journal)
      ensures f.rotated ==>
        var t, claim := Try(old(journal.Physical(f.finished)), f.active), old(Standing(tree, Id()));
        var tried := old(Salvage(Reread(Snap(), Found(f.finished)), t.Sealed(claim)));
        && (r.Ok? <==> t.Clears(claim))
        && Snap() == (if r.Ok? && old(evidence) == [] then Quarantine(tried) else tried)
        && (t.frames != [] ==> Standing(tree, old(Id())) == t.After(claim))
        && (t.frames == [] ==> tree == old(tree))
      ensures f.rotated ==> !journal.file.TornAppend?
      ensures r.Ok? ==> journal.parts == [] && !journal.poisoned
      ensures r.Ok? ==> evidence == old(evidence) && (evidence != [] ==> Id() == old(Id()))
    {
      if !f.rotated {
        return Err(JournalNotRecovered);
      }
      var moved := MoveAside(f.finished);
      if !moved {
        return Ok(());
      }
      var last := |evidence| - 1;
      r := TryEvidence(evidence[last], f.active);
      if r.Ok? {
        QuarantineEvidence(evidence[last], evidence[..last]);
      }
    }

    /** A fresh journal takes the place of the active one. Its frames become evidence,
        and the group when there is no earlier evidence. */
    method MoveAside(finished: bool) returns (moved: bool)
      requires Valid() && !running
      modifies this, journal
      ensures Valid() && !running && segment == old(segment) && admission == old(admission) && unchanged(admission)
      ensures journal.parts == [] && !journal.poisoned && tree == old(tree)
      ensures Snap() == old(Reread(Snap(), Found(finished)))
      ensures moved <==> old(journal.Physical(finished)) != []
      ensures moved ==> evidence == old(evidence + [Evidence(Id(), journal.Physical(finished))]) && Id() == old(Id())
      ensures !moved ==> evidence == old(evidence) && (evidence != [] ==> Id() == old(Id()))
    {
      moved := journal.Physical(finished) != [];
      if evidence == [] {
        MoveFirstAside(finished);
      } else {
        MoveNextAside(finished);
      }
    }

    method MoveFirstAside(finished: bool)
      requires Valid() && !running && evidence == []
      modifies this, journal
      ensures Valid() && !running && segment == old(segment) && admission == old(admission) && unchanged(admission)
      ensures journal.parts == [] && !journal.poisoned && tree == old(tree)
      ensures Snap() == old(Reread(Snap(), Found(finished)))
      ensures
        var frames := old(journal.Physical(finished));
        evidence == (if frames == [] then [] else [Evidence(old(Id()), frames)]) && (frames != [] ==> Id() == old(Id()))
    {
      FoundKeepsBooks(finished);
      PhysicalIsSealable(finished);
      NothingFitsHere();
      var id := journal.Identity();
      ghost var after := Reread(Snap(), Found(finished));
      var frames := journal.Rotate(finished);
      if frames != [] {
        group, evidence := frames, [Evidence(id.value, frames)];
      }
      history := history.(accepted := after.accepted);
      assert Snap() == after;
    }

    method MoveNextAside(finished: bool)
      requires Valid() && !running && evidence != []
      modifies this, journal
      ensures Aside() && journal.parts == [] && !journal.poisoned && tree == old(tree) && Id() == old(Id())
      ensures Snap() == old(Snap()) && Found(finished).None?
      ensures
        var frames := old(journal.Physical(finished));
        evidence == old(evidence) + if frames == [] then [] else [Evidence(Id(), frames)]
    {
      var id := journal.Identity();
      var frames := journal.Rotate(finished);
      if frames != [] {
        evidence := evidence + [Evidence(id.value, frames)];
      }
    }

    lemma NothingFitsHere()
      requires Valid()
      ensures rules.fits([])
    {
      NothingContained(limits);
      assert ContentsFit(limits, []);
    }

    /** One attempt on the first of the evidence, which then goes into quarantine. */
    method SettleNext(a: Attempt) returns (r: Result<(), CollectorError>)
      requires Valid() && !running && evidence != [] && journal.parts == [] && !journal.poisoned
      modifies this, journal
      ensures Aside()
      ensures var t, claim := Try(old(evidence)[0].frames, a), old(Standing(tree, Id()));
        var tried := old(Salvage(Snap(), t.Sealed(claim)));
        && (r.Ok? <==> t.Clears(claim))
        && Standing(tree, old(Id())) == t.After(claim)
        && Snap() == (if evidence == [] then Quarantine(tried) else tried)
      ensures evidence == if r.Ok? then old(evidence)[1..] else old(evidence)
      ensures evidence != [] ==> Id() == old(Id())
      ensures r.Ok? ==> journal.parts == [] && !journal.poisoned
    {
      r := TryEvidence(evidence[0], a);
      if r.Ok? {
        QuarantineEvidence(evidence[0], evidence[1..]);
      }
    }

    /** `recover_pending_journals`: one attempt on each journal that earlier starts
        moved aside and could not settle. */
    method RecoverPending(pending: nat -> Attempt) returns (r: Result<(), CollectorError>)
      requires Valid() && !running && journal.parts == [] && !journal.poisoned
      modifies this, journal
      ensures Aside()
      ensures var o := old(Recover(Standing(tree, Id()), PendingTries(evidence, pending, 0)));
        (r.Ok? <==> o.clear) && Snap() == old(Settled(Snap(), o))
      ensures r.Ok? ==> evidence == [] && journal.parts == [] && !journal.poisoned
      ensures !journal.file.TornAppend?
    {
      ghost var before, id, segment := Snap(), Id(), None;
      ghost var o := Recover(Standing(tree, id), PendingTries(evidence, pending, 0));
      var n := 0;
      while evidence != []
        invariant Aside() && journal.parts == [] && !journal.poisoned
        invariant o == Then(segment, Recover(Standing(tree, id), PendingTries(evidence, pending, n)))
        invariant evidence != [] ==> Id() == id && Snap() == Salvage(before, segment)
        invariant evidence == [] ==> Snap() == Quarantine(Salvage(before, segment))
        decreases |evidence|
      {
        ghost var gained := Try(evidence[0].frames, pending(n)).Sealed(Standing(tree, id));
        FirstInTurn(Standing(tree, id), evidence, pending, n);
        SalvagedInTurn(before, segment, gained);
        r := SettleNext(pending(n));
        segment := if segment.Some? then segment else gained;
        if r.Err? {
          return;
        }
        n := n + 1;
      }
      r := Ok(());
    }

    /** What a start reads of the torn window: nothing when it does not get that far. */
    ghost function FoundBy(f: Recovery): Option<Part>
      reads this, journal
    {
      if f.opening.Opens? || (f.opening.Damaged? && f.rotated) then Found(f.finished) else None
    }

    ghost function Outlook(f: Recovery): Recovered
      reads this, journal
    {
      Foretold(f, Standing(tree, Id()), journal.Readable(f.finished), journal.Physical(f.finished), Pending(f))
    }

    /** What this step of a start has gained, and what is left to do. */
    ghost predicate InTurn(f: Recovery, outlook: Recovered, gained: Claim, ok: bool)
      reads this, journal
    {
      outlook == Then(gained, if ok then Later(f) else Recovered(false, None))
    }

    ghost predicate Tried(before: Snapshot, gained: Claim, ok: bool)
      reads this, journal
    {
      Snap() == if ok && evidence == [] then Quarantine(Salvage(before, gained)) else Salvage(before, gained)
    }

    method RotateActive(f: Recovery) returns (r: Result<(), CollectorError>, ghost gained: Claim)
      requires Valid() && !running
      modifies this, journal
      ensures Valid() && !running && admission == old(admission) && unchanged(admission)
      ensures r.Ok? ==> journal.parts == [] && !journal.poisoned
      ensures if f.rotated then !journal.file.TornAppend? else unchanged(journal)
      ensures InTurn(f, old(Rotated(f, Standing(tree, Id()), journal.Physical(f.finished), Pending(f))), gained, r.Ok?)
      ensures Tried(old(Reread(Snap(), if f.rotated then Found(f.finished) else None)), gained, r.Ok?)
    {
      ghost var claim, frames := Standing(tree, Id()), journal.Physical(f.finished);
      gained := None;
      if f.rotated {
        RotatedInTurn(f, claim, frames, Pending(f));
        gained := Try(frames, f.active).Sealed(claim);
      }
      r := RecoverActiveJournal(f);
    }

    /** The seal of a journal that opened; when it fails, the rotation is next. */
    method SealOpened(f: Recovery) returns (r: Result<(), CollectorError>, ghost gained: Claim)
      requires Valid() && !running && journal.parts != [] && !journal.poisoned
      modifies this, journal
      ensures Aside() && evidence == old(evidence) && !journal.file.TornAppend?
      ensures r.Ok? ==> journal.parts == [] && !journal.poisoned
      ensures var rest := if r.Ok? then Later(f)
                          else Rotated(f, Standing(tree, Id()), journal.Physical(f.finished), Pending(f));
        old(Opened(f, Standing(tree, Id()), journal.parts, Pending(f))) == Then(gained, rest)
      ensures Snap() == old(Salvage(Snap(), gained)) && (r.Ok? && evidence == [] ==> Snap().live == [])
    {
      OpenedInTurn(f, Standing(tree, Id()), journal.parts, Pending(f));
      gained := OpenedGains(f, Standing(tree, Id()), journal.parts);
      r := SealRecovered(f.first);
    }

    method RecoverOpened(f: Recovery) returns (r: Result<(), CollectorError>, ghost gained: Claim)
      requires Valid() && !running && !journal.poisoned
      modifies this, journal
      ensures Valid() && !running && admission == old(admission) && unchanged(admission)
      ensures r.Ok? ==> journal.parts == [] && !journal.poisoned
      ensures !journal.file.TornAppend?
      ensures InTurn(f, old(Opened(f, Standing(tree, Id()), journal.parts, Pending(f))), gained, r.Ok?)
      ensures Tried(old(Snap()), gained, r.Ok?)
    {
      gained := None;
      if journal.parts == [] {
        return Ok(()), gained;
      }
      r, gained := SealOpened(f);
      if r.Err? {
        ghost var more, first := None, gained;
        r, more := RotateActive(f);
        ThenInTurn(first, more, if r.Ok? then Later(f) else Recovered(false, None));
        SalvagedInTurn(old(Snap()), first, more);
        gained := if first.Some? then first else more;
      }
    }

    /** The first part of a start: what becomes of the active journal. */
    method RecoverActive(f: Recovery) returns (r: Result<(), CollectorError>, ghost gained: Claim)
      requires Valid() && !running && !f.opening.Unreadable?
      modifies this, journal
      ensures Valid() && !running && admission == old(admission) && unchanged(admission)
      ensures r.Ok? ==> journal.parts == [] && !journal.poisoned
      ensures journal.file.TornAppend? ==> journal.file == old(journal.file) && old(FoundBy(f)).None?
      ensures InTurn(f, old(Outlook(f)), gained, r.Ok?)
      ensures Tried(old(Reread(Snap(), FoundBy(f))), gained, r.Ok?)
    {
      if f.opening.Damaged? {
        r, gained := RotateActive(f);
      } else {
        Reload(f.finished);
        r, gained := RecoverOpened(f);
      }
    }

    ghost function Pending(f: Recovery): seq<Try>
      reads this
    {
      PendingTries(evidence, f.pending, 0)
    }

    ghost function Later(f: Recovery): Recovered
      reads this, journal
    {
      Recover(Standing(tree, Id()), Pending(f))
    }

    /** Everything a start does to journal, evidence and tree. */
    method RecoverAll(f: Recovery) returns (r: Result<(), CollectorError>)
      requires Valid() && !running && !f.opening.Unreadable?
      modifies this, journal
      ensures Valid() && !running && admission == old(admission) && unchanged(admission)
      ensures r.Ok? <==> old(Outlook(f)).clear
      ensures r.Ok? ==> journal.parts == [] && !journal.poisoned && evidence == []
      ensures journal.file.TornAppend? ==> journal.file == old(journal.file) && old(FoundBy(f)).None?
      ensures Snap() == old(Settled(Reread(Snap(), FoundBy(f)), Outlook(f)))
    {
      ghost var gained, before, rest := None, Reread(Snap(), FoundBy(f)), Recovered(true, None);
      r, gained := RecoverActive(f);
      if r.Ok? {
        rest := Later(f);
        r := RecoverPending(f.pending);
      }
      SettledInTurn(before, gained, rest);
    }

    /** Collection begins with nothing to settle. */
    method StartProcess()
      requires Valid() && !running && journal.parts == [] && !journal.poisoned && evidence == []
      modifies this
      ensures Healthy() && running && fresh(admission) && Snap() == old(Snap()) && Snap().live == []
    {
      NothingContained(limits);
      segment := SegmentState(None, None, false);
      admission := new SegmentAdmission(limits);
      assert LedgerCounts(limits, admission.Account(), []);
      running := true;
    }

    /** The previous process is gone; that changes nothing for the next start. */
    method StopProcess(ghost f: Recovery)
      requires Valid()
      modifies this`running
      ensures Healthy() && !running
      ensures Snap() == old(Snap()) && Outlook(f) == old(Outlook(f)) && FoundBy(f) == old(FoundBy(f))
    {
      running := false;
    }

    /** The files that a start can read, and what verifies in them. */
    ghost function AttemptsOf(f: Recovery): seq<Try>
      reads this, journal
    {
      Attempts(f, journal.Readable(f.finished), journal.Physical(f.finished), Pending(f))
    }

    lemma OutlookFromOneFile(f: Recovery)
      ensures Outlook(f).segment.Some? ==>
        FromOneFile(f, Outlook(f).segment.value, journal.Readable(f.finished), AttemptsOf(f))
    {
      PublishedFromOneFile(f, Standing(tree, Id()), journal.Readable(f.finished), journal.Physical(f.finished),
                           Pending(f));
    }

    /** Opening the collector after a stop or a kill. It starts with an empty journal
        and no evidence, or not at all. Windows that were not settled are published
        as far as they can be read, or else quarantined. */
    method Restart(f: Recovery) returns (r: Result<(), CollectorError>)
      requires Valid()
      modifies this, journal
      ensures Healthy() && (admission == old(admission) || fresh(admission))
      ensures running <==> r.Ok?
      ensures r.Ok? <==> old(Outlook(f)).clear
      ensures r.Ok? ==> journal.parts == [] && evidence == [] && Snap().live == []
      ensures journal.file.TornAppend? ==> journal.file == old(journal.file) && old(FoundBy(f)).None?
      ensures Snap() == old(Settled(Reread(Snap(), FoundBy(f)), Outlook(f)))
      ensures var o := old(Outlook(f)); o.segment.Some? ==>
        FromOneFile(f, o.segment.value, old(journal.Readable(f.finished)), old(AttemptsOf(f)))
    {
      OutlookFromOneFile(f);
      StopProcess(f);
      if f.opening.Unreadable? {
        return Err(JournalNotRecovered);
      }
      r := RecoverAll(f);
      if r.Ok? {
        StartProcess();
      }
    }

    /** The age valve of the main loop, which runs before collection. */
    method AgeValve(now: nat, f: SealFaults) returns (sealed: Option<int>, ghost aged: bool)
      requires Open() && GoesOn()
      modifies this, journal
      ensures Valid() && running && (admission == old(admission) || fresh(admission))
      ensures aged <==> AgesOut(Config(), old(Here()), now, f)
      ensures sealed.Some? <==> aged && f.Resets()
      ensures sealed.Some? ==> sealed.value == old(journal.parts)[0].ts
      ensures Snap() == if aged then old(Closed(Snap())) else old(Snap())
      ensures GoesOn() <==> !aged || f.Resets()
      ensures GoesOn() ==> Open() && Here() == AfterValve(old(Here()), aged)
      ensures !journal.file.TornAppend?
    {
      sealed, aged := None, false;
      if AgeExpired(segment.openedAt, now, maxAge) {
        aged := CanSeal(journal.parts, journal.poisoned, tree, f.written);
        var dest := SealOpenSegment(f);
        sealed := if dest.Ok? then Some(dest.value) else None;
      }
    }

    method StopIfPersistenceUnhealthy()
      requires Valid() && running
      modifies this`running
      ensures Healthy() && Snap() == old(Snap()) && Here() == old(Here())
      ensures running <==> old(GoesOn())
    {
      running := !segment.publishedPendingReset && !journal.poisoned;
    }

    /** The valve, and the check that follows it. */
    method ValveAndCheck(now: nat, f: SealFaults) returns (ghost aged: bool)
      requires Healthy() && running
      modifies this, journal
      ensures Healthy() && (admission == old(admission) || fresh(admission))
      ensures aged <==> AgesOut(Config(), old(Here()), now, f)
      ensures aged ==> old(Snap()).live != []
      ensures Snap() == if aged then old(Closed(Snap())) else old(Snap())
      ensures running <==> !aged || f.Resets()
      ensures running ==> Here() == AfterValve(old(Here()), aged)
      ensures !journal.file.TornAppend?
    {
      var sealed;
      sealed, aged := AgeValve(now, f);
      StopIfPersistenceUnhealthy();
    }

    method TakeWindow(w: Collected) returns (ghost o: Outcome, ghost why: Option<Reason>, ghost ok: bool)
      requires Healthy() && running && IsWindow(w.part.window)
      modifies this, journal, admission
      ensures Healthy() && (admission == old(admission) || fresh(admission))
      ensures (o.early ==> old(Snap()).live != []) && (o.closed ==> o.taken)
      ensures Called(Config(), old(Here()), w, o, why, ok)
      ensures Snap() == AfterAppend(old(BeforeAppend(Snap(), o.early)), w.part, o.taken, o.closed)
      ensures running ==> Here() == AfterCall(old(Here()), w.part, o, w.faults.now)
      ensures ok || w.faults.Sound() ==> running
      ensures journal.file.TornAppend? ==> journal.file.part == w.part && !o.taken
    {
      var sealed;
      sealed, o, why := AppendWindowAndMaybeSeal(w.part, w.forced, w.faults);
      ok := sealed.Ok?;
      StopIfPersistenceUnhealthy();
    }

    /** One tick of the main loop; a failed persistence step ends the process. */
    method OneTick(now: nat, age: SealFaults, window: Option<Collected>) returns (ghost o: TickOutcome)
      requires Healthy() && running && (window.Some? ==> IsWindow(window.value.part.window))
      modifies this, journal, admission
      ensures Healthy() && (admission == old(admission) || fresh(admission))
      ensures Ticked(Config(), old(Here()), now, age, window, o, Here(), running)
      ensures (o.aged ==> old(Snap()).live != []) && (o.call.early ==> !o.aged && old(Snap()).live != [])
      ensures (o.call.closed ==> o.call.taken) && Snap() == SnapAfter(old(Snap()), window, o)
      ensures journal.file.TornAppend? ==> window.Some? && journal.file.part == window.value.part && !o.call.taken
    {
      ghost var aged := ValveAndCheck(now, age);
      o := Nothing().(aged := aged);
      if running && window.Some? {
        ghost var call, why, ok := TakeWindow(window.value);
        o := TickOutcome(aged, call, why, ok);
      }
    }

    ghost function Now(): State
      reads this, journal
    {
      State(running, Snap(), Here(), journal.segmentId, journal.file, evidence)
    }

    /** The values that a start is foretold from. */
    lemma OutlookAgrees(f: Recovery)
      requires Valid()
      ensures Outlook(f) == OutlookOf(Now(), f) && FoundBy(f) == FoundIn(Now(), f)
    {
    }

    /** A start may find the window whose rollback failed. */
    method StepRestart(f: Recovery) returns (ghost found: bool)
      requires Healthy()
      modifies this, journal
      ensures Healthy() && (admission == old(admission) || fresh(admission))
      ensures Happened(Config(), old(Now()), Event.Restart(f), Nothing(), Now())
      ensures Stepped(Event.Restart(f), old(history), history, old(journal.file), journal.file, false, found)
    {
      OutlookAgrees(f);
      found := FoundBy(f).Some?;
      SettledExtends(Reread(Snap(), FoundBy(f)), Outlook(f));
      var recovered := Restart(f);
    }

    method StepTick(now: nat, age: SealFaults, window: Option<Collected>) returns (ghost o: TickOutcome)
      requires Healthy() && WellFormed(Event.OneTick(now, age, window))
      modifies this, journal, admission
      ensures Healthy() && (admission == old(admission) || fresh(admission))
      ensures Happened(Config(), old(Now()), Event.OneTick(now, age, window), o, Now())
      ensures Stepped(Event.OneTick(now, age, window), old(history), history, old(journal.file), journal.file,
                      o.call.taken, false)
    {
      o := Nothing();
      if running {
        o := OneTick(now, age, window);
      }
    }

    /** One event. */
    method Step(e: Event) returns (ghost o: TickOutcome, ghost found: bool)
      requires Healthy() && WellFormed(e)
      modifies this, journal, admission
      ensures Healthy() && (admission == old(admission) || fresh(admission))
      ensures Happened(Config(), old(Now()), e, o, Now())
      ensures Stepped(e, old(history), history, old(journal.file), journal.file, o.call.taken, found)
    {
      o, found := Nothing(), false;
      match e
      case Restart(f) => found := StepRestart(f);
      case OneTick(now, age, window) => o := StepTick(now, age, window);
    }

    /** Any run: windows, expired segments, failing seals, failing resets, failing
        rollbacks, stops and restarts, in any order. Everything published stays
        published, and the accepted windows are those of the events whose append
        succeeded, at once or as a later start found; `late` is such a window of
        the time before. */
    method Run(events: seq<Event>)
      returns (ghost taken: seq<bool>, ghost late: bool, ghost trace: seq<State>, ghost outcomes: seq<TickOutcome>)
      requires Healthy() && forall i :: 0 <= i < |events| ==> WellFormed(events[i])
      modifies this, journal, admission
      ensures Healthy() && (admission == old(admission) || fresh(admission))
      ensures |taken| == |events| && (late ==> old(journal.file.TornAppend?)) && Flagged(outcomes, taken)
      ensures Grew(old(history), history, Gained(events, taken, late, old(journal.file)))
      ensures Traced(Config(), events, outcomes, trace) && trace[0] == old(Now()) && trace[|events|] == Now()
    {
      taken, late, trace, outcomes := [], false, [Now()], [];
      ghost var start, torn, c, first := history, journal.file, Config(), Now();
      ghost var doubt: Option<nat> := None;
      for i := 0 to |events|
        invariant Healthy() && (admission == old(admission) || fresh(admission))
        invariant RunUpTo(c, start, history, torn, journal.file, events[..i], taken, doubt, late, outcomes, trace)
        invariant trace[0] == first && trace[i] == Now()
      {
        ghost var before, file := history, journal.file;
        ghost var o, found := Step(events[i]);
        taken, doubt, late := RunNext(c, start, before, history, torn, file, journal.file, events, i,
                                      taken, doubt, late, outcomes, trace, o, found, Now());
        outcomes, trace := outcomes + [o], trace + [Now()];
      }
      assert events[..|events|] == events;
    }
  }

  /** What the invariant of a run says: the windows of published segments and of
      quarantined journals, then the live ones, are the accepted ones, each once
      and in order; the tree still holds what it held, and otherwise exactly the
      published segments; each of these carries its first window's timestamp, holds
      windows of its journal in their order, and satisfies every sealed limit. */
  lemma RunIsSound(c: Collector)
    requires c.Valid()
    ensures Conserved(c.Snap().placed, c.Snap().live, c.Snap().accepted)
    ensures forall id :: id in c.initial ==> id in c.tree && c.tree[id] == c.initial[id]
    ensures forall i :: 0 <= i < |c.Snap().placed| ==>
      var s := c.Snap().placed[i];
      && s.frames != [] && ContentsFit(c.limits, s.frames)
      && (s.Segment? ==> s.parts != [] && Sub(s.parts, s.frames) && ContentsFit(c.limits, s.parts))
      && (s.Segment? ==> s.id == s.frames[0].ts && IsSegmentId(s.id) && s.id in c.tree && c.tree[s.id] == s.parts)
    ensures forall id :: id in c.tree ==>
      || id in c.initial
      || exists i :: 0 <= i < |c.Snap().placed| && c.Snap().placed[i].Segment? && c.Snap().placed[i].id == id
  {
    var placed := c.Snap().placed;
    assert Books(c.rules.fits, c.initial, c.tree, c.Snap());
    TreeHolds(c.initial, placed);
    forall i | 0 <= i < |placed|
      ensures WellPlaced(c.rules.fits, placed[i]) && ContentsFit(c.limits, placed[i].frames)
      ensures placed[i].Segment? ==> ContentsFit(c.limits, placed[i].parts)
    {
      assert c.rules.fits(placed[i].frames) == ContentsFit(c.limits, placed[i].frames);
      assert placed[i].Segment? ==> c.rules.fits(placed[i].parts) == ContentsFit(c.limits, placed[i].parts);
    }
  }

  lemma {:induction false} EntriesAppend(a: seq<Part>, b: seq<Part>)
    ensures EntriesOf(a + b) == EntriesOf(a) + EntriesOf(b)
  {
    if b == [] {
      assert a + b == a;
    } else {
      var n := |b| - 1;
      EntriesAppend(a, b[..n]);
      assert (a + b)[..|a| + n] == a + b[..n];
    }
  }

  ghost predicate Agree(parts: seq<Part>) {
    Consistent(EntriesOf(parts))
  }

  lemma BothAgree(a: seq<Part>, b: seq<Part>)
    requires Agree(a + b)
    ensures Agree(a) && Agree(b)
  {
    EntriesAppend(a, b);
    ConsistentParts(EntriesOf(a), EntriesOf(b));
  }

  /** Windows that agree as a whole agree in every stretch. */
  lemma StretchAgrees(parts: seq<Part>, i: nat, j: nat)
    requires i <= j <= |parts| && Agree(parts)
    ensures Agree(parts[i..j])
  {
    var a, b, c := parts[..i], parts[i..j], parts[j..];
    assert parts == a + (b + c);
    BothAgree(a, b + c);
    BothAgree(b, c);
  }

  /** Windows that each fit a segment and a journal, with their own timestamps, free
      names, and one value for each dictionary id. */
  ghost predicate Unproblematic(limits: Limits, tree: Tree, maxLen: nat, windows: seq<Part>) {
    && DistinctTimes(windows) && Consistent(EntriesOf(windows))
    && forall i :: 0 <= i < |windows| ==>
      var w := windows[i];
      && ContentsFit(limits, [w]) && Acceptable(w) && HasRoom([], w, maxLen)
      && IsSegmentId(w.ts) && w.ts !in tree
  }

  lemma UnproblematicIsRegular(c: Collector, tree: Tree, windows: seq<Part>)
    requires c.Valid() && CapacityErrors(c.limits) && Unproblematic(c.limits, tree, c.journal.maxLen, windows)
    ensures Regular(c.Config(), tree, windows)
  {
    forall i | 0 <= i < |windows|
      ensures c.rules.fits([windows[i]])
    {
      assert ContentsFit(c.limits, [windows[i]]);
    }
    forall i, j | 0 <= i <= j <= |windows|
      ensures c.rules.compatible(windows[i..j])
    {
      StretchAgrees(windows, i, j);
      assert Compatible(windows[i..j]);
    }
  }

  lemma SmoothRunTakesAll(c: Collector, tree: Tree, events: seq<Event>, outcomes: seq<TickOutcome>, trace: seq<State>)
    requires c.Valid() && Traced(c.Config(), events, outcomes, trace) && trace[|events|] == c.Now()
    requires trace[0].running && trace[0].open.live == [] && trace[0].snap == Snapshot([], [], [])
    requires trace[0].open.tree == tree && forall i :: 0 <= i < |events| ==> Smooth(events[i])
    requires CapacityErrors(c.limits) && Unproblematic(c.limits, tree, c.journal.maxLen, Offered(events))
    ensures c.running && c.Snap().accepted == Offered(events)
  {
    UnproblematicIsRegular(c, tree, Offered(events));
    SmoothRun(c.Config(), tree, events, outcomes, trace);
  }

  /** From an empty journal, with the registry's own limits: every window that was
      taken is in a segment of the tree, in quarantine or live, once and in order;
      no segment of the tree was lost; and every published one is within the limits.
      Without faults, unproblematic windows are all taken. */
  method Collect(registry: Registry, tree: Tree, maxBytes: u64, maxAge: nat, maxLen: nat, events: seq<Event>)
    returns (c: Collector, ghost taken: seq<bool>)
    requires JOURNAL_HEADER_LEN <= maxLen <= USIZE_MAX
    requires forall i :: 0 <= i < |events| ==> WellFormed(events[i])
    ensures fresh(c) && c.Healthy() && |taken| == |events|
    ensures Conserved(c.Snap().placed, c.Snap().live, Chosen(events, taken))
    ensures forall id :: id in tree ==> id in c.tree && c.tree[id] == tree[id]
    ensures forall i :: 0 <= i < |c.Snap().placed| && c.Snap().placed[i].Segment? ==>
      var s := c.Snap().placed[i];
      ContentsFit(SealedLimits(registry), s.parts) && s.id in c.tree && c.tree[s.id] == s.parts
    ensures
      && (forall i :: 0 <= i < |events| ==> Smooth(events[i]))
      && Unproblematic(SealedLimits(registry), tree, maxLen, Offered(events)) ==>
        c.running && Chosen(events, taken) == Offered(events)
  {
    SealedLimitsAreSound(registry);
    SealedLimitsReportCapacity(registry);
    c := new Collector(SealedLimits(registry), tree, maxBytes, maxAge, maxLen);
    ghost var late, trace, outcomes;
    taken, late, trace, outcomes := c.Run(events);
    assert Gained(events, taken, late, Frames) == Chosen(events, taken);
    RunIsSound(c);
    if (forall i :: 0 <= i < |events| ==> Smooth(events[i]))
      && Unproblematic(c.limits, tree, maxLen, Offered(events))
    {
      SmoothRunTakesAll(c, tree, events, outcomes, trace);
    }
  }

  /** Between ticks of a running process the ledger is the recount of the journal,
      the contents fit, and the open segment is named by its first window. */
  lemma LedgerIsRecount(c: Collector)
    requires c.Healthy() && c.running
    ensures var parts := c.journal.parts;
      && c.admission.Totals() == LedgerOf(SectionsOf(parts), EntriesOf(parts))
      && ContentsFit(c.limits, parts)
      && c.segment.firstId == c.journal.segmentId == (if parts == [] then None else Some(parts[0].ts))
      && c.Snap().live == parts
  {
    assert LedgerCounts(c.limits, c.admission.Account(), c.journal.parts);
    assert ContentsFit(c.limits, c.journal.parts);
  }

  /** The folded rules are the recomputations of the ledger. */
  lemma RulesMean(c: Collector, parts: seq<Part>, part: Part)
    requires c.Valid() && WithSections(parts) && part.window.sections != []
    ensures c.rules.fits([part]) <==> Admissible(c.limits, [], [], part.window)
    ensures c.rules.fits(parts + [part]) <==> Admissible(c.limits, SectionsOf(parts), EntriesOf(parts), part.window)
    ensures c.rules.compatible(parts + [part]) <==> Consistent(EntriesOf(parts) + part.window.entries)
  {
    PartFits(c.limits, parts, part);
    var together, alone := ContentsFit(c.limits, parts + [part]), ContentsFit(c.limits, [part]);
    var compatible := Compatible(parts + [part]);
    assert c.rules.fits(parts + [part]) == together && c.rules.fits([part]) == alone;
    assert c.rules.compatible(parts + [part]) == compatible;
  }
}
