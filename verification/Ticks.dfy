/** What a call and a tick do to the open segment, as values: which windows are
    taken, when a segment is sealed, and what follows for whole runs. */
module Ticks {
  import opened Machine
  import opened Journals
  import opened Segments
  import opened Recoveries

  /** What stays the same during a run: what one segment may hold and which windows
      agree, whether a lack of room is always reported as such, the journal's
      greatest length, and when an open segment has to be sealed. */
  datatype Settings = Settings(
    fits: Contents, compatible: Contents, explains: bool, maxLen: nat, maxBytes: nat, maxAge: nat)

  /** The windows of the open segment, the published segments, and since when it is
      open. */
  datatype OpenSegment = OpenSegment(live: seq<Part>, tree: Tree, since: Option<nat>)

  /** A collected window, whether the tick was forced, and what its call meets. */
  datatype Collected = Collected(part: Part, forced: bool, faults: Faults)

  // ---- One call ----

  /** No other segment has the name of these windows. */
  predicate NameFree(s: OpenSegment) {
    s.live != [] && (s.live[0].ts in s.tree ==> s.tree[s.live[0].ts] == s.live)
  }

  function Put(tree: Tree, parts: seq<Part>): Tree
    requires parts != []
  {
    tree[parts[0].ts := parts]
  }

  /** The segment was published and the journal is empty. */
  function Shut(s: OpenSegment): OpenSegment
    requires s.live != []
  {
    OpenSegment([], Put(s.tree, s.live), None)
  }

  function Taken(s: OpenSegment, part: Part, now: nat): OpenSegment {
    OpenSegment(s.live + [part], s.tree, if s.live == [] then Some(now) else s.since)
  }

  /** The window fits the open segment and the journal. */
  ghost predicate Joins(c: Settings, s: OpenSegment, part: Part) {
    c.fits(s.live + [part]) && HasRoom(s.live, part, c.maxLen)
  }

  /** A sound journal with these windows takes one more. */
  predicate Accepts(c: Settings, live: seq<Part>, part: Part) {
    Acceptable(part) && HasRoom(live, part, c.maxLen) && (live == [] ==> IsSegmentId(part.ts))
  }

  /** The open segment is published before the append: it and the window do not go
      together, and it can be sealed. */
  ghost predicate SealsBefore(c: Settings, s: OpenSegment, part: Part, f: Faults) {
    && NameFree(s) && !Joins(c, s, part)
    && if c.fits(s.live + [part]) then Acceptable(part) && f.full.written else c.fits([part]) && f.early.written
  }

  /** The window ends up in the journal. */
  ghost predicate IsTaken(c: Settings, s: OpenSegment, part: Part, f: Faults) {
    if Joins(c, s, part) then Accepts(c, s.live, part) && f.append == Durable
    else
      && SealsBefore(c, s, part, f) && Accepts(c, [], part)
      && if c.fits(s.live + [part]) then f.full.Resets() && f.retry == Durable
         else f.early.Resets() && f.append == Durable
  }

  /** Whether that decides a call: a window that contradicts the open segment may
      also be refused for that. */
  ghost predicate Decided(c: Settings, s: OpenSegment, part: Part) {
    c.fits(s.live + [part]) || (c.explains && c.compatible(s.live + [part]))
  }

  /** The segment is old enough. */
  predicate Aged(c: Settings, s: OpenSegment, now: nat) {
    s.since.Some? && (c.maxAge == 0 || now >= s.since.value + c.maxAge)
  }

  /** Why a segment is sealed after the append: forced, one per window, its size, or
      its age; the first reason that holds is given. */
  ghost predicate Because(c: Settings, s: OpenSegment, forced: bool, now: nat, why: Option<Reason>) {
    && (why == Some(Forced) <==> forced)
    && (why == Some(Tick) <==> !forced && c.maxBytes == 0)
    && (why == Some(Size) <==> !forced && c.maxBytes > 0 && JournalLen(s.live) >= c.maxBytes)
    && (why == Some(Age) <==> !forced && JournalLen(s.live) < c.maxBytes && Aged(c, s, now))
    && (why.Some? ==> why.value.Forced? || why.value.Tick? || why.value.Size? || why.value.Age?)
  }

  /** The open segment after the early seal and the append. */
  function AfterTaking(s: OpenSegment, part: Part, o: Outcome, now: nat): OpenSegment
    requires o.early ==> s.live != []
  {
    var mid := if o.early then Shut(s) else s;
    if o.taken then Taken(mid, part, now) else mid
  }

  function AfterCall(s: OpenSegment, part: Part, o: Outcome, now: nat): OpenSegment
    requires (o.early ==> s.live != []) && (o.closed ==> o.taken)
  {
    var joined := AfterTaking(s, part, o, now);
    if o.closed then Shut(joined) else joined
  }

  /** Everything one call decides. */
  ghost predicate Called(c: Settings, s: OpenSegment, w: Collected, o: Outcome, why: Option<Reason>, ok: bool) {
    && (o.early ==> SealsBefore(c, s, w.part, w.faults))
    && (o.taken ==> IsTaken(c, s, w.part, w.faults))
    && (Decided(c, s, w.part) ==> (o.early <==> SealsBefore(c, s, w.part, w.faults)))
    && (Decided(c, s, w.part) ==> (o.taken <==> IsTaken(c, s, w.part, w.faults)))
    && (o.closed ==> o.taken)
    && (ok ==> o.taken)
    && (o.taken ==>
          var joined := AfterTaking(s, w.part, o, w.faults.now);
          && Because(c, joined, w.forced, w.faults.now, why)
          && (o.closed <==> why.Some? && NameFree(joined) && w.faults.final.written)
          && (ok <==> (why.Some? ==> o.closed && w.faults.final.Resets())))
  }

  /** After a call that succeeds a segment stays open only if the tick was not
      forced and the segment is short and young. */
  lemma OpenSegmentIsSmall(c: Settings, s: OpenSegment, w: Collected, o: Outcome, why: Option<Reason>)
    requires Called(c, s, w, o, why, true) && (s.live != [] ==> s.since.Some?) && (o.early ==> s.live != [])
    ensures var next := AfterCall(s, w.part, o, w.faults.now);
      next.live != [] ==>
        && !w.forced && JournalLen(next.live) < c.maxBytes
        && next.since.Some? && w.faults.now < next.since.value + c.maxAge
  {
  }

  /** Without faults a regular window is taken: it fits a segment and a journal by
      itself, and the open segment can be sealed if it has to be. */
  lemma RegularIsTaken(c: Settings, s: OpenSegment, part: Part, f: Faults)
    requires c.fits([part]) && Accepts(c, [], part) && f.None() && (s.live != [] ==> NameFree(s))
    ensures IsTaken(c, s, part, f)
  {
    assert s.live == [] ==> s.live + [part] == [part];
  }

  // ---- One tick ----

  datatype Event =
    | OneTick(now: nat, age: SealFaults, window: Option<Collected>)
    | Restart(f: Recovery)

  /** What a tick did: the age valve sealed, then came the call. */
  datatype TickOutcome = TickOutcome(aged: bool, call: Outcome, why: Option<Reason>, ok: bool)

  function Nothing(): TickOutcome {
    TickOutcome(false, Outcome(false, false, false), None, false)
  }

  /** The age valve seals an expired segment that can be sealed. */
  predicate AgesOut(c: Settings, s: OpenSegment, now: nat, f: SealFaults) {
    Aged(c, s, now) && NameFree(s) && f.written
  }

  function AfterValve(s: OpenSegment, aged: bool): OpenSegment
    requires aged ==> s.live != []
  {
    if aged then Shut(s) else s
  }

  /** The age valve first; if the process goes on, the call with exactly this window. */
  ghost predicate Ticked(c: Settings, s: OpenSegment, now: nat, age: SealFaults, window: Option<Collected>,
                         o: TickOutcome, next: OpenSegment, goesOn: bool)
  {
    && (o.aged <==> AgesOut(c, s, now, age))
    && var mid := AfterValve(s, o.aged);
       if window.None? || (o.aged && !age.Resets()) then
         o == Nothing().(aged := o.aged) && (goesOn <==> !o.aged || age.Resets()) && (goesOn ==> next == mid)
       else
         var w := window.value;
         && Called(c, mid, w, o.call, o.why, o.ok) && (o.call.early ==> mid.live != [])
         && (goesOn ==> next == AfterCall(mid, w.part, o.call, w.faults.now))
         && (o.ok || w.faults.Sound() ==> goesOn)
  }

  /** The account after a tick. */
  function SnapAfter(s: Snapshot, window: Option<Collected>, o: TickOutcome): Snapshot
    requires (o.aged ==> s.live != []) && (o.call.early ==> !o.aged && s.live != []) && (o.call.closed ==> o.call.taken)
  {
    var mid := if o.aged then Closed(s) else s;
    if window.None? then mid
    else AfterAppend(BeforeAppend(mid, o.call.early), window.value.part, o.call.taken, o.call.closed)
  }

  // ---- Whole runs ----

  /** Everything a run acts on. */
  datatype State = State(
    running: bool, snap: Snapshot, open: OpenSegment, id: Option<int>, file: FileState, evidence: seq<Evidence>)

  /** The window whose rollback failed is part of the file or not. */
  function FramesIn(s: State, finished: bool): seq<Part> {
    match s.file
    case TornAppend(_, part) => if finished then s.open.live + [part] else s.open.live
    case _ => s.open.live
  }

  /** What opens: a committed reset leaves nothing. */
  function ReadFrom(s: State, finished: bool): seq<Part> {
    match s.file
    case ResetCommitted => []
    case TornReset => if finished then [] else s.open.live
    case _ => FramesIn(s, finished)
  }

  function NameOf(s: State): int {
    if s.evidence != [] then s.evidence[0].id
    else if s.id.Some? then s.id.value
    else if s.file.TornAppend? then s.file.id
    else 0
  }

  /** What a start is going to achieve. */
  function OutlookOf(s: State, f: Recovery): Recovered {
    Foretold(f, Standing(s.open.tree, NameOf(s)), ReadFrom(s, f.finished), FramesIn(s, f.finished),
             PendingTries(s.evidence, f.pending, 0))
  }

  /** The torn window that a start finds in a file that it gets to read. */
  function FoundIn(s: State, f: Recovery): Option<Part> {
    if s.file.TornAppend? && f.finished && (f.opening.Opens? || (f.opening.Damaged? && f.rotated))
    then Some(s.file.part) else None
  }

  /** What each event does. */
  ghost predicate Happened(c: Settings, s: State, e: Event, o: TickOutcome, t: State) {
    match e
    case OneTick(now, age, window) =>
      if !s.running then t == s && o == Nothing()
      else
        && Ticked(c, s.open, now, age, window, o, t.open, t.running)
        && (o.aged ==> s.snap.live != []) && (o.call.early ==> !o.aged && s.snap.live != [])
        && (o.call.closed ==> o.call.taken)
        && t.snap == SnapAfter(s.snap, window, o)
    case Restart(f) =>
      && o == Nothing()
      && (t.running <==> OutlookOf(s, f).clear)
      && t.snap == Settled(Reread(s.snap, FoundIn(s, f)), OutlookOf(s, f))
      && (t.running ==> t.open.live == [] && t.open.since == None && t.evidence == [])
  }

  ghost predicate HappenedAt(c: Settings, events: seq<Event>, outcomes: seq<TickOutcome>, trace: seq<State>, i: nat)
    requires i < |events| == |outcomes| && |trace| == |events| + 1
  {
    Happened(c, trace[i], events[i], outcomes[i], trace[i + 1])
  }

  /** The states before and after every event, with what each tick did. */
  ghost predicate Traced(c: Settings, events: seq<Event>, outcomes: seq<TickOutcome>, trace: seq<State>) {
    && |outcomes| == |events| && |trace| == |events| + 1
    && forall i :: 0 <= i < |events| ==> HappenedAt(c, events, outcomes, trace, i)
  }

  lemma TracedNext(c: Settings, events: seq<Event>, n: nat, outcomes: seq<TickOutcome>, trace: seq<State>,
                   o: TickOutcome, next: State)
    requires n < |events| && Traced(c, events[..n], outcomes, trace)
    requires Happened(c, trace[n], events[n], o, next)
    ensures Traced(c, events[..n + 1], outcomes + [o], trace + [next])
  {
    var upTo, all, states := events[..n + 1], outcomes + [o], trace + [next];
    forall i | 0 <= i < n + 1
      ensures HappenedAt(c, upTo, all, states, i)
    {
      assert i < n ==> HappenedAt(c, events[..n], outcomes, trace, i);
    }
  }

  // ---- Runs without faults ----

  /** The windows of the first `n` ticks, and of all. */
  function OfferedTo(events: seq<Event>, n: nat): seq<Part>
    requires n <= |events|
  {
    if n == 0 then [] else OfferedTo(events, n - 1) + OfferedBy(events[n - 1])
  }

  function Offered(events: seq<Event>): seq<Part> {
    OfferedTo(events, |events|)
  }

  function OfferedBy(e: Event): seq<Part> {
    if e.OneTick? && e.window.Some? then [e.window.value.part] else []
  }

  /** A tick on which no write fails. */
  predicate Smooth(e: Event) {
    e.OneTick? && e.age.None() && (e.window.Some? ==> e.window.value.faults.None())
  }

  /** A window that is small enough by itself and does not name a segment. */
  ghost predicate RegularAlone(c: Settings, tree: Tree, w: Part) {
    c.fits([w]) && Accepts(c, [], w) && w.ts !in tree
  }

  /** Such windows with their own timestamps, no stretch of which contradicts itself. */
  ghost predicate Regular(c: Settings, tree: Tree, windows: seq<Part>) {
    && c.explains && DistinctTimes(windows)
    && (forall i :: 0 <= i < |windows| ==> RegularAlone(c, tree, windows[i]))
    && (forall i, j :: 0 <= i <= j <= |windows| ==> c.compatible(windows[i..j]))
  }

  /** Of the first `n` windows, those before `first` are published and the others
      are in the open segment. */
  ghost predicate Kept(tree: Tree, accepted: seq<Part>, windows: seq<Part>, first: nat, n: nat, s: State) {
    && first <= n <= |windows| && s.running
    && s.open.live == s.snap.live == windows[first..n]
    && s.snap.accepted == accepted + windows[..n]
    && (forall id :: id in s.open.tree ==> id in tree || exists j :: 0 <= j < first && windows[j].ts == id)
  }

  /** So the name of the open segment is free, also with the next window. */
  lemma KeptIsFree(c: Settings, tree: Tree, accepted: seq<Part>, windows: seq<Part>, first: nat, n: nat, s: State)
    requires Regular(c, tree, windows) && Kept(tree, accepted, windows, first, n, s)
    ensures s.open.live != [] ==> NameFree(s.open)
    ensures n < |windows| ==> windows[n].ts !in s.open.tree
  {
    if s.open.live != [] {
      assert s.open.live[0] == windows[first];
    }
  }

  /** A seal moves the boundary up. */
  lemma ShutIsKept(c: Settings, tree: Tree, accepted: seq<Part>, windows: seq<Part>, first: nat, n: nat, s: State,
                   t: State)
    requires Kept(tree, accepted, windows, first, n, s) && s.open.live != []
    requires t.running && t.open == Shut(s.open) && t.snap == Closed(s.snap)
    ensures Kept(tree, accepted, windows, n, n, t)
  {
    assert s.open.live[0] == windows[first];
    forall id | id in t.open.tree
      ensures id in tree || exists j :: 0 <= j < n && windows[j].ts == id
    {
      if id == windows[first].ts {
        assert first < n;
      } else if id !in tree {
        var j :| 0 <= j < first && windows[j].ts == id;
      }
    }
  }

  lemma TakenIsKept(c: Settings, tree: Tree, accepted: seq<Part>, windows: seq<Part>, first: nat, n: nat, s: State,
                    now: nat, t: State)
    requires Kept(tree, accepted, windows, first, n, s) && n < |windows|
    requires t.running && t.open == Taken(s.open, windows[n], now) && t.snap == Appended(s.snap, windows[n])
    ensures Kept(tree, accepted, windows, first, n + 1, t)
  {
    assert windows[first..n] + [windows[n]] == windows[first..n + 1];
    assert accepted + windows[..n] + [windows[n]] == accepted + windows[..n + 1];
  }

  /** A call without faults takes the next window. */
  lemma SmoothCall(c: Settings, tree: Tree, accepted: seq<Part>, windows: seq<Part>, first: nat, n: nat, s: State,
                   w: Collected, o: Outcome, why: Option<Reason>, ok: bool, t: State) returns (next: nat)
    requires Regular(c, tree, windows) && Kept(tree, accepted, windows, first, n, s)
    requires n < |windows| && w.part == windows[n] && w.faults.None() && Called(c, s.open, w, o, why, ok)
    requires (o.early ==> s.open.live != []) && t.running && t.open == AfterCall(s.open, w.part, o, w.faults.now)
    requires t.snap == AfterAppend(BeforeAppend(s.snap, o.early), w.part, o.taken, o.closed)
    ensures o.taken && Kept(tree, accepted, windows, next, n + 1, t)
  {
    KeptIsFree(c, tree, accepted, windows, first, n, s);
    RegularIsTaken(c, s.open, w.part, w.faults);
    assert s.open.live + [w.part] == windows[first..n + 1];
    assert Decided(c, s.open, w.part) && o.taken;
    next := if o.early then n else first;
    var mid := if o.early then s.(open := Shut(s.open), snap := Closed(s.snap)) else s;
    if o.early {
      ShutIsKept(c, tree, accepted, windows, first, n, s, mid);
    }
    var joined := mid.(open := Taken(mid.open, w.part, w.faults.now), snap := Appended(mid.snap, w.part));
    TakenIsKept(c, tree, accepted, windows, next, n, mid, w.faults.now, joined);
    if o.closed {
      ShutIsKept(c, tree, accepted, windows, next, n + 1, joined, joined.(open := t.open, snap := t.snap));
      next := n + 1;
    }
  }

  lemma SmoothTick(c: Settings, tree: Tree, accepted: seq<Part>, windows: seq<Part>, first: nat, n: nat, s: State,
                   e: Event, o: TickOutcome, t: State) returns (next: nat)
    requires Regular(c, tree, windows) && Kept(tree, accepted, windows, first, n, s)
    requires Smooth(e) && Happened(c, s, e, o, t)
    requires n + |OfferedBy(e)| <= |windows| && (e.window.Some? ==> windows[n] == e.window.value.part)
    ensures Kept(tree, accepted, windows, next, n + |OfferedBy(e)|, t)
    ensures e.window.Some? ==> o.call.taken
  {
    next := if o.aged then n else first;
    var mid := if o.aged then s.(open := Shut(s.open), snap := Closed(s.snap)) else s;
    if o.aged {
      ShutIsKept(c, tree, accepted, windows, first, n, s, mid);
    }
    if e.window.Some? {
      var w := e.window.value;
      next := SmoothCall(c, tree, accepted, windows, next, n, mid, w, o.call, o.why, o.ok, t);
    }
  }

  /** A window that the tick offered was taken. */
  ghost predicate TookOffered(events: seq<Event>, outcomes: seq<TickOutcome>, i: nat)
    requires i < |events| == |outcomes|
  {
    OfferedBy(events[i]) != [] ==> outcomes[i].call.taken
  }

  /** How many windows the first ticks offer. */
  function Count(events: seq<Event>, n: nat): nat
    requires n <= |events|
  {
    |OfferedTo(events, n)|
  }

  lemma {:induction false} OfferedPrefix(events: seq<Event>, n: nat, m: nat)
    requires n <= m <= |events|
    ensures OfferedTo(events, n) <= OfferedTo(events, m)
  {
    if n < m {
      OfferedPrefix(events, n, m - 1);
    }
  }

  lemma NextOffered(events: seq<Event>, n: nat)
    requires n < |events|
    ensures Count(events, n + 1) == Count(events, n) + |OfferedBy(events[n])| <= |Offered(events)|
    ensures OfferedBy(events[n]) != [] ==> Offered(events)[Count(events, n)] == OfferedBy(events[n])[0]
  {
    OfferedPrefix(events, n + 1, |events|);
  }

  lemma StartIsKept(tree: Tree, events: seq<Event>, s: State)
    requires s.running && s.open.live == [] == s.snap.live && s.open.tree == tree
    ensures Kept(tree, s.snap.accepted, Offered(events), 0, Count(events, 0), s)
  {
  }

  ghost predicate KeptAt(tree: Tree, accepted: seq<Part>, windows: seq<Part>, n: nat, s: State) {
    exists first :: Kept(tree, accepted, windows, first, n, s)
  }

  /** After each of the first ticks of a run, all that was offered is kept. */
  ghost predicate KeptUpTo(tree: Tree, windows: seq<Part>, events: seq<Event>, outcomes: seq<TickOutcome>,
                           trace: seq<State>, n: nat)
    requires n <= |events| == |outcomes| && |trace| == |events| + 1
  {
    && KeptAt(tree, trace[0].snap.accepted, windows, Count(events, n), trace[n])
    && (n > 0 ==> KeptUpTo(tree, windows, events, outcomes, trace, n - 1) && TookOffered(events, outcomes, n - 1))
  }

  lemma SmoothTickAt(c: Settings, tree: Tree, accepted: seq<Part>, windows: seq<Part>, k: nat,
                     events: seq<Event>, outcomes: seq<TickOutcome>, trace: seq<State>, n: nat)
    requires 0 < n <= |events| == |outcomes| && |trace| == |events| + 1 && HappenedAt(c, events, outcomes, trace, n - 1)
    requires Regular(c, tree, windows) && KeptAt(tree, accepted, windows, k, trace[n - 1])
    requires Smooth(events[n - 1]) && k + |OfferedBy(events[n - 1])| <= |windows|
    requires OfferedBy(events[n - 1]) != [] ==> windows[k] == OfferedBy(events[n - 1])[0]
    ensures KeptAt(tree, accepted, windows, k + |OfferedBy(events[n - 1])|, trace[n])
    ensures TookOffered(events, outcomes, n - 1)
  {
    var first :| Kept(tree, accepted, windows, first, k, trace[n - 1]);
    var next := SmoothTick(
      c, tree, accepted, windows, first, k, trace[n - 1], events[n - 1], outcomes[n - 1], trace[n]);
  }

  lemma KeptNext(c: Settings, tree: Tree, windows: seq<Part>, events: seq<Event>, n: nat,
                 outcomes: seq<TickOutcome>, trace: seq<State>)
    requires 0 < n <= |events| == |outcomes| && |trace| == |events| + 1
    requires HappenedAt(c, events, outcomes, trace, n - 1) && Smooth(events[n - 1])
    requires Regular(c, tree, windows) && KeptUpTo(tree, windows, events, outcomes, trace, n - 1)
    requires Count(events, n - 1) + |OfferedBy(events[n - 1])| == Count(events, n) <= |windows|
    requires OfferedBy(events[n - 1]) != [] ==> windows[Count(events, n - 1)] == OfferedBy(events[n - 1])[0]
    ensures KeptUpTo(tree, windows, events, outcomes, trace, n)
  {
    SmoothTickAt(c, tree, trace[0].snap.accepted, windows, Count(events, n - 1), events, outcomes, trace, n);
  }

  /** Nothing is lost: in a run without faults every regular window is taken, and
      after every tick all of them so far stand behind what was accepted before, in
      their order. */
  lemma {:induction false} EverythingIsTaken(c: Settings, tree: Tree, windows: seq<Part>, events: seq<Event>, n: nat,
                                             outcomes: seq<TickOutcome>, trace: seq<State>)
    requires Traced(c, events, outcomes, trace) && n <= |events|
    requires forall i :: 0 <= i < |events| ==> Smooth(events[i])
    requires windows == Offered(events) && Regular(c, tree, windows)
    requires trace[0].running && trace[0].open.live == [] == trace[0].snap.live && trace[0].open.tree == tree
    ensures KeptUpTo(tree, windows, events, outcomes, trace, n)
  {
    if n == 0 {
      StartIsKept(tree, events, trace[0]);
    } else {
      EverythingIsTaken(c, tree, windows, events, n - 1, outcomes, trace);
      NextOffered(events, n - 1);
      assert HappenedAt(c, events, outcomes, trace, n - 1);
      KeptNext(c, tree, windows, events, n, outcomes, trace);
    }
  }

  /** So the process is still running and everything offered was accepted. */
  lemma SmoothRun(c: Settings, tree: Tree, events: seq<Event>, outcomes: seq<TickOutcome>, trace: seq<State>)
    requires Traced(c, events, outcomes, trace)
    requires (forall i :: 0 <= i < |events| ==> Smooth(events[i])) && Regular(c, tree, Offered(events))
    requires trace[0].running && trace[0].open.live == [] == trace[0].snap.live && trace[0].open.tree == tree
    ensures trace[|events|].running
    ensures trace[|events|].snap.accepted == trace[0].snap.accepted + Offered(events)
  {
    EverythingIsTaken(c, tree, Offered(events), events, |events|, outcomes, trace);
    assert Offered(events)[..|Offered(events)|] == Offered(events);
  }

  /** In such a run with a size limit, a segment that is still open after a tick is
      shorter than the limit, unless the tick had no window. */
  lemma OpenSegmentsAreSmall(c: Settings, s: State, e: Event, o: TickOutcome, t: State)
    requires Happened(c, s, e, o, t) && s.running && e.OneTick? && e.window.Some? && o.ok && t.open.live != []
    requires s.open.live != [] ==> s.open.since.Some?
    ensures var w := e.window.value;
      && !w.forced && JournalLen(t.open.live) < c.maxBytes
      && t.open.since.Some? && w.faults.now < t.open.since.value + c.maxAge
  {
    var mid := AfterValve(s.open, o.aged);
    OpenSegmentIsSmall(c, mid, e.window.value, o.call, o.why);
  }
}
