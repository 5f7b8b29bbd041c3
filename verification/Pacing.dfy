/** The scheduler, the database-time budget and the collection cycle together:
    how long a source that comes due can wait, and how long the loop may sleep. */
module Pacing {
  import opened Machine
  import opened Schedulers

  // ---- The budget of the sized pool sources ----

  /** Statements, tables and indexes, in the order in which a cycle reads them. */
  type PoolSource = n: nat | n < 3

  function KindOf(source: PoolSource): Kind {
    if source == 0 then STATEMENTS else if source == 1 then USER_TABLES else USER_INDEXES
  }

  class PoolBudget {
    /** The ceiling in milliseconds; zero disables the budget. */
    const limit: nat
    const starved: array<bool>

    ghost predicate Valid()
      reads this
    {
      starved.Length == 3
    }

    constructor (limit: nat)
      ensures Valid() && this.limit == limit && fresh(starved)
      ensures forall p: PoolSource :: !starved[p]
    {
      this.limit := limit;
      starved := new bool[3](_ => false);
    }

    predicate Admits(source: PoolSource, spent: nat, forced: bool)
      requires Valid()
      reads this, starved
    {
      forced || limit == 0 || starved[source] || spent < limit * MILLISECOND
    }

    /** A refusal is a promise: the flag it sets admits the source the next time. */
    method Admit(source: PoolSource, spent: nat, forced: bool) returns (admitted: bool)
      requires Valid()
      modifies starved
      ensures admitted <==> old(Admits(source, spent, forced))
      ensures starved[source] <==> !admitted
      ensures forall p: PoolSource :: p != source ==> starved[p] == old(starved[p])
    {
      if forced || limit == 0 {
        starved[source] := false;
        return true;
      }
      if starved[source] {
        starved[source] := false;
        return true;
      }
      if spent / MILLISECOND >= limit {
        starved[source] := true;
        return false;
      }
      admitted := true;
    }
  }

  // ---- One tick ----

  /** How far the collection cycle gets: the connection or the main queries fail,
      a later step fails, or all of it succeeds. */
  datatype CycleEnd = BeforePool | AfterPool | Completed

  /** What one tick meets: the time spent when each pool source asks, the trigger
      verdicts of the sources that were read, and whether segments were sealed. */
  datatype TickInput = TickInput(
    now: nat, forced: bool, spent: seq<nat>, end: CycleEnd,
    activityHot: Option<bool>, replicationHot: Option<bool>, agedOut: bool, sealed: bool)
  {
    predicate Valid() {
      |spent| == 3
    }
  }

  /** One due source asks for admission; a refused one is put on the list. */
  method ReadOne(source: PoolSource, due: DueSet, budget: PoolBudget, spent: nat, deferred: seq<Kind>)
    returns (admitted: bool, more: seq<Kind>)
    requires budget.Valid()
    modifies budget.starved
    ensures admitted <==> due.Has(KindOf(source)) && old(budget.Admits(source, spent, due.forced))
    ensures more == if due.Has(KindOf(source)) && !admitted then deferred + [KindOf(source)] else deferred
    ensures budget.starved[source] == if due.Has(KindOf(source)) then !admitted else old(budget.starved[source])
    ensures forall p: PoolSource :: p != source ==> budget.starved[p] == old(budget.starved[p])
  {
    admitted, more := false, deferred;
    if due.Has(KindOf(source)) {
      admitted := budget.Admit(source, spent, due.forced);
      if !admitted {
        more := deferred + [KindOf(source)];
      }
    }
  }

  function Refused(source: PoolSource, due: DueSet, admitted: seq<bool>): seq<Kind>
    requires |admitted| == 3
  {
    if due.Has(KindOf(source)) && !admitted[source] then [KindOf(source)] else []
  }

  /** The deferral list holds exactly the due sources that were refused. */
  lemma RefusedKinds(due: DueSet, admitted: seq<bool>, deferred: seq<Kind>, p: PoolSource)
    requires |admitted| == 3
    requires deferred == Refused(0, due, admitted) + Refused(1, due, admitted) + Refused(2, due, admitted)
    ensures KindOf(p) in deferred <==> due.Has(KindOf(p)) && !admitted[p]
  {
  }

  /** No other source is on it. */
  lemma RefusedArePool(due: DueSet, admitted: seq<bool>, deferred: seq<Kind>, k: Kind)
    requires |admitted| == 3 && k != STATEMENTS && k != USER_TABLES && k != USER_INDEXES
    requires deferred == Refused(0, due, admitted) + Refused(1, due, admitted) + Refused(2, due, admitted)
    ensures k !in deferred
  {
  }

  /** `read_pool_sources`: statements first, indexes last. */
  method ReadPoolSources(due: DueSet, budget: PoolBudget, spent: seq<nat>)
    returns (admitted: seq<bool>, deferred: seq<Kind>)
    requires budget.Valid() && |spent| == 3
    modifies budget.starved
    ensures admitted == [due.Has(STATEMENTS) && old(budget.Admits(0, spent[0], due.forced)),
                         due.Has(USER_TABLES) && old(budget.Admits(1, spent[1], due.forced)),
                         due.Has(USER_INDEXES) && old(budget.Admits(2, spent[2], due.forced))]
    ensures deferred == Refused(0, due, admitted) + Refused(1, due, admitted) + Refused(2, due, admitted)
    ensures budget.starved[0] == if due.Has(STATEMENTS) then !admitted[0] else old(budget.starved[0])
    ensures budget.starved[1] == if due.Has(USER_TABLES) then !admitted[1] else old(budget.starved[1])
    ensures budget.starved[2] == if due.Has(USER_INDEXES) then !admitted[2] else old(budget.starved[2])
  {
    var statements, tables, indexes;
    statements, deferred := ReadOne(0, due, budget, spent[0], []);
    tables, deferred := ReadOne(1, due, budget, spent[1], deferred);
    indexes, deferred := ReadOne(2, due, budget, spent[2], deferred);
    admitted := [statements, tables, indexes];
  }

  /** The deferral feedback of `run_collection_cycle`. */
  method DeferAll(sched: Scheduler, deferred: seq<Kind>)
    requires sched.Valid()
    modifies sched.lastRead
    ensures forall k: Kind :: sched.lastRead[k] == if k in deferred then None else old(sched.lastRead[k])
  {
    for i := 0 to |deferred|
      invariant forall k: Kind :: sched.lastRead[k] == if k in deferred[..i] then None else old(sched.lastRead[k])
    {
      sched.Defer(deferred[i]);
      assert deferred[..i + 1] == deferred[..i] + [deferred[i]];
    }
    assert deferred[..|deferred|] == deferred;
  }

  /** `apply_trigger_pace`. */
  method ApplyTriggerPace(sched: Scheduler, kind: Kind, hot: Option<bool>, fast: u64)
    requires sched.Valid()
    modifies sched.overrides
    ensures forall k: Kind :: k != kind ==> sched.overrides[k] == old(sched.overrides[k])
    ensures sched.overrides[kind] == if hot == Some(true) && fast < sched.intervals[kind] then Some(fast)
                                     else if hot == Some(false) then None else old(sched.overrides[kind])
  {
    if hot == Some(true) {
      var changed := sched.Accelerate(kind, fast);
    } else if hot == Some(false) {
      var changed := sched.Relax(kind);
    }
  }

  // ---- The pool sources as a state machine ----

  /** What the pool sources remember: when each was read, and whether the budget
      owes it an admission. */
  datatype PoolState = PoolState(last: seq<Option<nat>>, starved: seq<bool>) {
    predicate Valid() {
      |last| == 3 && |starved| == 3
    }
  }

  /** Their intervals in force, the base interval of indexes, and the budget. */
  datatype Pace = Pace(secs: seq<u64>, indexesBase: u64, limit: nat) {
    predicate Valid() {
      |secs| == 3
    }
  }

  predicate ComesDue(pace: Pace, s: PoolState, i: TickInput, p: PoolSource)
    requires pace.Valid() && s.Valid()
  {
    i.forced || Elapsed(s.last[p], pace.secs[p], i.now)
  }

  predicate GivesWay(pace: Pace, s: PoolState, i: TickInput)
    requires pace.Valid() && s.Valid()
  {
    && !i.forced && s.last[2].Some? && pace.indexesBase > 0
    && Elapsed(s.last[1], pace.secs[1], i.now) && Elapsed(s.last[2], pace.secs[2], i.now)
  }

  predicate Planned(pace: Pace, s: PoolState, i: TickInput, p: PoolSource)
    requires pace.Valid() && s.Valid()
  {
    ComesDue(pace, s, i, p) && !(p == 2 && GivesWay(pace, s, i))
  }

  predicate Admitted(pace: Pace, s: PoolState, i: TickInput, p: PoolSource)
    requires pace.Valid() && s.Valid() && i.Valid()
  {
    && i.end != BeforePool && Planned(pace, s, i, p)
    && (i.forced || pace.limit == 0 || s.starved[p] || i.spent[p] < pace.limit * MILLISECOND)
  }

  function LastAfter(pace: Pace, s: PoolState, i: TickInput, p: PoolSource): Option<nat>
    requires pace.Valid() && s.Valid() && i.Valid()
  {
    if Planned(pace, s, i, p) then
      if i.end == Completed && !Admitted(pace, s, i, p) then None else Some(i.now)
    else if p == 2 && GivesWay(pace, s, i) then None
    else s.last[p]
  }

  predicate StarvedAfter(pace: Pace, s: PoolState, i: TickInput, p: PoolSource)
    requires pace.Valid() && s.Valid() && i.Valid()
  {
    if i.end == BeforePool || !Planned(pace, s, i, p) then s.starved[p] else !Admitted(pace, s, i, p)
  }

  function Next(pace: Pace, s: PoolState, i: TickInput): (next: PoolState)
    requires pace.Valid() && s.Valid() && i.Valid()
    ensures next.Valid()
  {
    PoolState([LastAfter(pace, s, i, 0), LastAfter(pace, s, i, 1), LastAfter(pace, s, i, 2)],
              [StarvedAfter(pace, s, i, 0), StarvedAfter(pace, s, i, 1), StarvedAfter(pace, s, i, 2)])
  }

  ghost function View(sched: Scheduler, budget: PoolBudget): PoolState
    requires sched.Valid() && budget.Valid()
    reads sched, sched.lastRead, budget, budget.starved
  {
    PoolState([sched.lastRead[KindOf(0)], sched.lastRead[KindOf(1)], sched.lastRead[KindOf(2)]],
              [budget.starved[0], budget.starved[1], budget.starved[2]])
  }

  ghost function PaceOf(sched: Scheduler, budget: PoolBudget): Pace
    requires sched.Valid() && budget.Valid()
    reads sched, sched.overrides, budget
  {
    Pace([sched.Secs(KindOf(0)), sched.Secs(KindOf(1)), sched.Secs(KindOf(2))],
         sched.intervals[USER_INDEXES], budget.limit)
  }

  /** A cycle that completes moves the pace of activity and replication, each by its
      own verdict: a hot source is accelerated when its fast interval is below the
      base, a calm one goes back to the base, and without a verdict nothing changes. */
  function PaceAfter(k: Kind, base: u64, pace: Option<u64>, i: TickInput, fastActivity: u64, fastReplication: u64)
    : Option<u64>
  {
    if i.end != Completed || (k != ACTIVITY && k != REPLICATION) then pace
    else
      var (hot, fast) := if k == ACTIVITY then (i.activityHot, fastActivity) else (i.replicationHot, fastReplication);
      if hot == Some(false) then None else if hot == Some(true) && fast < base then Some(fast) else pace
  }

  /** The collection cycle: reads, and after a cycle that completes the triggers
      and the deferrals. */
  method Cycle(sched: Scheduler, budget: PoolBudget, due: DueSet, i: TickInput, fastActivity: u64, fastReplication: u64)
    returns (admitted: seq<bool>)
    requires sched.Valid() && budget.Valid() && i.Valid()
    modifies sched.overrides, sched.lastRead, budget.starved
    ensures |admitted| == 3
    ensures forall p: PoolSource :: admitted[p] <==>
      i.end != BeforePool && due.Has(KindOf(p)) && old(budget.Admits(p, i.spent[p], due.forced))
    ensures forall p: PoolSource ::
      budget.starved[p] == if i.end != BeforePool && due.Has(KindOf(p)) then !admitted[p] else old(budget.starved[p])
    ensures forall p: PoolSource ::
      sched.lastRead[KindOf(p)] == if i.end == Completed && due.Has(KindOf(p)) && !admitted[p] then None
                                   else old(sched.lastRead[KindOf(p)])
    ensures forall k: Kind :: k != STATEMENTS && k != USER_TABLES && k != USER_INDEXES ==>
      sched.lastRead[k] == old(sched.lastRead[k])
    ensures forall k: Kind ::
      sched.overrides[k] == PaceAfter(k, sched.intervals[k], old(sched.overrides[k]), i, fastActivity, fastReplication)
  {
    admitted := [false, false, false];
    if i.end != BeforePool {
      var deferred;
      admitted, deferred := ReadPoolSources(due, budget, i.spent);
      forall p: PoolSource
        ensures KindOf(p) in deferred <==> due.Has(KindOf(p)) && !admitted[p]
      {
        RefusedKinds(due, admitted, deferred, p);
      }
      forall k: Kind | k != STATEMENTS && k != USER_TABLES && k != USER_INDEXES
        ensures k !in deferred
      {
        RefusedArePool(due, admitted, deferred, k);
      }
      if i.end == Completed {
        ApplyTriggerPace(sched, ACTIVITY, i.activityHot, fastActivity);
        ApplyTriggerPace(sched, REPLICATION, i.replicationHot, fastReplication);
        DeferAll(sched, deferred);
      }
    }
  }

  /** The scheduler's own terms and those of the state machine agree. */
  lemma PlanAgrees(sched: Scheduler, budget: PoolBudget, i: TickInput, p: PoolSource)
    requires sched.Valid() && budget.Valid() && i.Valid()
    ensures var (pace, s) := (PaceOf(sched, budget), View(sched, budget));
      && s.last[p] == sched.lastRead[KindOf(p)] && s.starved[p] == budget.starved[p]
      && (Planned(pace, s, i, p) <==> sched.IsPlanned(KindOf(p), i.now, i.forced))
      && (!i.forced ==> (GivesWay(pace, s, i) <==> sched.Yields(i.now)))
      && (Admitted(pace, s, i, p) <==>
            i.end != BeforePool && Planned(pace, s, i, p) && budget.Admits(p, i.spent[p], i.forced))
  {
  }

  /** One source after a tick. */
  ghost predicate SteppedOne(pace: Pace, s: PoolState, i: TickInput, p: PoolSource,
                             last: Option<nat>, starved: bool, admitted: bool)
    requires pace.Valid() && s.Valid() && i.Valid()
  {
    && last == LastAfter(pace, s, i, p)
    && starved == StarvedAfter(pace, s, i, p)
    && admitted == Admitted(pace, s, i, p)
  }

  /** The four sources that every segment carries by itself wait for the next tick. */
  ghost predicate PutBack(sched: Scheduler)
    requires sched.Valid()
    reads sched, sched.lastRead
  {
    && sched.lastRead[RESET_METADATA] == None && sched.lastRead[INSTANCE_METADATA] == None
    && sched.lastRead[SETTINGS] == None && sched.lastRead[OS_MOUNT_TOPO] == None
  }

  /** The plan holds all four. */
  predicate CarriesSegment(due: DueSet) {
    due.Has(RESET_METADATA) && due.Has(INSTANCE_METADATA) && due.Has(SETTINGS) && due.Has(OS_MOUNT_TOPO)
  }

  /** Outside the pool a source that is planned is marked as read now, any other
      keeps its time, and after a seal those four are put back. */
  ghost predicate ReadsFollowPlan(sched: Scheduler, due: DueSet, i: TickInput, sealed: bool, before: seq<Option<nat>>)
    requires sched.Valid() && |before| == SOURCES
    reads sched, sched.lastRead
  {
    && (sealed ==> PutBack(sched))
    && forall k: Kind :: k != STATEMENTS && k != USER_TABLES && k != USER_INDEXES ==>
      || (sealed && (k == RESET_METADATA || k == INSTANCE_METADATA || k == SETTINGS || k == OS_MOUNT_TOPO))
      || sched.lastRead[k] == if due.Has(k) then Some(i.now) else before[k]
  }

  method PlanAndCycle(sched: Scheduler, budget: PoolBudget, i: TickInput, fastActivity: u64, fastReplication: u64)
    returns (admitted: seq<bool>, due: DueSet)
    requires sched.Valid() && budget.Valid() && i.Valid()
    modifies sched.overrides, sched.lastRead, budget.starved
    ensures |admitted| == 3
    ensures forall p: PoolSource :: SteppedOne(old(PaceOf(sched, budget)), old(View(sched, budget)), i, p,
                                               sched.lastRead[KindOf(p)], budget.starved[p], admitted[p])
    ensures due.forced == i.forced && forall k: Kind :: due.Has(k) <==> old(sched.IsPlanned(k, i.now, i.forced))
    ensures ReadsFollowPlan(sched, due, i, i.agedOut, old(sched.lastRead[..]))
    ensures forall k: Kind ::
      sched.overrides[k] == PaceAfter(k, sched.intervals[k], old(sched.overrides[k]), i, fastActivity, fastReplication)
  {
    ghost var pace, s := PaceOf(sched, budget), View(sched, budget);
    forall p: PoolSource
      ensures s.last[p] == sched.lastRead[KindOf(p)] && s.starved[p] == budget.starved[p]
      ensures Planned(pace, s, i, p) <==> sched.IsPlanned(KindOf(p), i.now, i.forced)
      ensures Admitted(pace, s, i, p) <==>
        i.end != BeforePool && Planned(pace, s, i, p) && budget.Admits(p, i.spent[p], i.forced)
    {
      PlanAgrees(sched, budget, i, p);
    }
    PlanAgrees(sched, budget, i, 2);
    due := sched.Plan(i.now, i.forced);
    if i.agedOut {
      sched.MarkSegmentOpened();
    }
    admitted := Cycle(sched, budget, due, i, fastActivity, fastReplication);
  }

  /** One tick of the main loop. For the pool sources it is one step of that state
      machine; the others are read as planned, the verdicts move the paces, and a
      segment that was sealed, by age or by the cycle, puts its sources back. */
  method Tick(sched: Scheduler, budget: PoolBudget, i: TickInput, fastActivity: u64, fastReplication: u64)
    returns (admitted: seq<bool>, due: DueSet)
    requires sched.Valid() && budget.Valid() && i.Valid()
    modifies sched.overrides, sched.lastRead, budget.starved
    ensures PaceOf(sched, budget) == old(PaceOf(sched, budget))
    ensures View(sched, budget) == Next(old(PaceOf(sched, budget)), old(View(sched, budget)), i)
    ensures Serves(old(PaceOf(sched, budget)), old(View(sched, budget)), i, admitted)
    ensures due.forced == i.forced && forall k: Kind :: due.Has(k) <==> old(sched.IsPlanned(k, i.now, i.forced))
    ensures ReadsFollowPlan(sched, due, i, i.agedOut || i.sealed, old(sched.lastRead[..]))
    ensures old(PutBack(sched)) ==> CarriesSegment(due)
    ensures forall k: Kind ::
      sched.overrides[k] == PaceAfter(k, sched.intervals[k], old(sched.overrides[k]), i, fastActivity, fastReplication)
  {
    ghost var pace, s := PaceOf(sched, budget), View(sched, budget);
    admitted, due := PlanAndCycle(sched, budget, i, fastActivity, fastReplication);
    assert forall p: PoolSource :: SteppedOne(pace, s, i, p, sched.lastRead[KindOf(p)], budget.starved[p], admitted[p]);
    if i.sealed {
      sched.MarkSegmentOpened();
    }
  }

  // ---- Bounded waiting ----

  /** From every state, for all intervals, times spent and forced ticks: statements
      and tables that come due are read on that tick or the next, when the cycles
      complete. */
  lemma WaitsOneTick(pace: Pace, s: PoolState, first: TickInput, second: TickInput, p: PoolSource)
    requires pace.Valid() && s.Valid() && first.Valid() && second.Valid()
    requires p < 2 && ComesDue(pace, s, first, p) && first.end == Completed && second.end != BeforePool
    ensures Admitted(pace, s, first, p) || Admitted(pace, Next(pace, s, first), second, p)
  {
    var next := Next(pace, s, first);
    assert next.last[p] == LastAfter(pace, s, first, p) && next.starved[p] == StarvedAfter(pace, s, first, p);
  }

  /** Indexes may first give way to tables and then be refused, but after that they
      are put back and owed: two ticks more at most. */
  lemma IndexesWaitTwoTicks(pace: Pace, s: PoolState, first: TickInput, second: TickInput, third: TickInput)
    requires pace.Valid() && s.Valid() && first.Valid() && second.Valid() && third.Valid()
    requires ComesDue(pace, s, first, 2) && first.end == Completed && second.end == Completed && third.end != BeforePool
    ensures var next := Next(pace, s, first);
      || Admitted(pace, s, first, 2)
      || Admitted(pace, next, second, 2)
      || Admitted(pace, Next(pace, next, second), third, 2)
  {
    var next := Next(pace, s, first);
    assert next.last[2] == LastAfter(pace, s, first, 2);
    var last := Next(pace, next, second);
    assert last.last[2] == LastAfter(pace, next, second, 2) && last.starved[2] == StarvedAfter(pace, next, second, 2);
  }

  /** The state before tick `k` of a run. */
  function StateAt(pace: Pace, s: PoolState, inputs: seq<TickInput>, k: nat): (at: PoolState)
    requires pace.Valid() && s.Valid() && k <= |inputs| && forall n :: 0 <= n < |inputs| ==> inputs[n].Valid()
    ensures at.Valid()
  {
    if k == 0 then s else Next(pace, StateAt(pace, s, inputs, k - 1), inputs[k - 1])
  }

  /** In every run, a source that comes due is read on that tick or the next one, and
      indexes within the next two, as long as the cycles complete. */
  lemma WaitsAreBounded(pace: Pace, s: PoolState, inputs: seq<TickInput>, k: nat, p: PoolSource)
    requires pace.Valid() && s.Valid() && forall n :: 0 <= n < |inputs| ==> inputs[n].Valid()
    requires k + (if p == 2 then 2 else 1) < |inputs| && ComesDue(pace, StateAt(pace, s, inputs, k), inputs[k], p)
    requires forall n :: k <= n <= k + (if p == 2 then 2 else 1) ==> inputs[n].end == Completed
    ensures var last := k + (if p == 2 then 2 else 1);
      exists n: nat :: k <= n <= last && Admitted(pace, StateAt(pace, s, inputs, n), inputs[n], p)
  {
    var first, second := StateAt(pace, s, inputs, k), StateAt(pace, s, inputs, k + 1);
    assert second == Next(pace, first, inputs[k]);
    if p == 2 {
      var third := StateAt(pace, s, inputs, k + 2);
      assert third == Next(pace, second, inputs[k + 1]);
      IndexesWaitTwoTicks(pace, first, inputs[k], inputs[k + 1], inputs[k + 2]);
    } else {
      WaitsOneTick(pace, first, inputs[k], inputs[k + 1], p);
    }
  }

  predicate Serves(pace: Pace, s: PoolState, i: TickInput, admitted: seq<bool>)
    requires pace.Valid() && s.Valid() && i.Valid()
  {
    |admitted| == 3 && forall p: PoolSource :: admitted[p] <==> Admitted(pace, s, i, p)
  }

  /** A segment was sealed on the tick before, by age or by its cycle. */
  ghost predicate FollowsSeal(inputs: seq<TickInput>, n: nat)
    requires n <= |inputs|
  {
    n > 0 && (inputs[n - 1].agedOut || inputs[n - 1].sealed)
  }

  /** Every tick served what the state machine admits on it. */
  predicate AllServed(pace: Pace, s: PoolState, inputs: seq<TickInput>, served: seq<seq<bool>>)
    requires pace.Valid() && s.Valid() && |served| <= |inputs| && forall n :: 0 <= n < |inputs| ==> inputs[n].Valid()
  {
    forall n :: 0 <= n < |served| ==> Serves(pace, StateAt(pace, s, inputs, n), inputs[n], served[n])
  }

  lemma AllServedNext(pace: Pace, s: PoolState, inputs: seq<TickInput>, served: seq<seq<bool>>, admitted: seq<bool>)
    requires pace.Valid() && s.Valid() && |served| < |inputs| && forall n :: 0 <= n < |inputs| ==> inputs[n].Valid()
    requires AllServed(pace, s, inputs, served)
    requires Serves(pace, StateAt(pace, s, inputs, |served|), inputs[|served|], admitted)
    ensures AllServed(pace, s, inputs, served + [admitted])
    ensures StateAt(pace, s, inputs, |served| + 1)
         == Next(pace, StateAt(pace, s, inputs, |served|), inputs[|served|])
  {
    var all := served + [admitted];
    forall n | 0 <= n < |all|
      ensures Serves(pace, StateAt(pace, s, inputs, n), inputs[n], all[n])
    {
      assert n < |served| ==> all[n] == served[n];
      assert n == |served| ==> all[n] == admitted;
    }
  }

  /** Every plan behind a seal holds the four sources. */
  ghost predicate SegmentsCarry(inputs: seq<TickInput>, plans: seq<DueSet>)
    requires |plans| <= |inputs|
  {
    forall n :: 0 <= n < |plans| ==> FollowsSeal(inputs, n) ==> CarriesSegment(plans[n])
  }

  lemma SegmentsCarryNext(inputs: seq<TickInput>, plans: seq<DueSet>, due: DueSet)
    requires |plans| < |inputs| && SegmentsCarry(inputs, plans)
    requires FollowsSeal(inputs, |plans|) ==> CarriesSegment(due)
    ensures SegmentsCarry(inputs, plans + [due])
  {
  }

  /** What a run of ticks needs of each one. */
  method TickInRun(sched: Scheduler, budget: PoolBudget, i: TickInput, fastActivity: u64, fastReplication: u64)
    returns (admitted: seq<bool>, due: DueSet)
    requires sched.Valid() && budget.Valid() && i.Valid()
    modifies sched.overrides, sched.lastRead, budget.starved
    ensures PaceOf(sched, budget) == old(PaceOf(sched, budget))
    ensures View(sched, budget) == Next(old(PaceOf(sched, budget)), old(View(sched, budget)), i)
    ensures Serves(old(PaceOf(sched, budget)), old(View(sched, budget)), i, admitted)
    ensures (old(PutBack(sched)) ==> CarriesSegment(due)) && (i.agedOut || i.sealed ==> PutBack(sched))
  {
    admitted, due := Tick(sched, budget, i, fastActivity, fastReplication);
  }

  /** The main loop's ticks: what each one served is what the run of the state
      machine admits, and the tick after a seal reads everything that makes the new
      segment self-contained, whatever the intervals are. */
  method RunTicks(sched: Scheduler, budget: PoolBudget, inputs: seq<TickInput>, fastActivity: u64, fastReplication: u64)
    returns (served: seq<seq<bool>>, plans: seq<DueSet>)
    requires sched.Valid() && budget.Valid() && forall n :: 0 <= n < |inputs| ==> inputs[n].Valid()
    modifies sched.overrides, sched.lastRead, budget.starved
    ensures |served| == |inputs| == |plans|
    ensures AllServed(old(PaceOf(sched, budget)), old(View(sched, budget)), inputs, served)
    ensures SegmentsCarry(inputs, plans)
  {
    served, plans := [], [];
    ghost var pace, s := PaceOf(sched, budget), View(sched, budget);
    for k := 0 to |inputs|
      invariant |served| == |plans| == k
      invariant PaceOf(sched, budget) == pace && View(sched, budget) == StateAt(pace, s, inputs, k)
      invariant AllServed(pace, s, inputs, served)
      invariant SegmentsCarry(inputs, plans)
      invariant FollowsSeal(inputs, k) ==> PutBack(sched)
    {
      var admitted, due := TickInRun(sched, budget, inputs[k], fastActivity, fastReplication);
      AllServedNext(pace, s, inputs, served, admitted);
      SegmentsCarryNext(inputs, plans, due);
      served, plans := served + [admitted], plans + [due];
    }
  }

  /** Two ticks are needed: indexes that give way and are then refused. */
  lemma IndexesMayNeedTwo()
    ensures var (pace, s) := (Pace([0, 0, 60], 60, 1), PoolState([Some(0), Some(0), Some(0)], [false, false, false]));
      var first := TickInput(60 * SECOND, false, [0, 0, MILLISECOND], Completed, None, None, false, false);
      var second := first.(now := 65 * SECOND);
      ComesDue(pace, s, first, 2) && !Admitted(pace, s, first, 2) && !Admitted(pace, Next(pace, s, first), second, 2)
  {
    var pace, s := Pace([0, 0, 60], 60, 1), PoolState([Some(0), Some(0), Some(0)], [false, false, false]);
    var first := TickInput(60 * SECOND, false, [0, 0, MILLISECOND], Completed, None, None, false, false);
    assert GivesWay(pace, s, first);
    assert Next(pace, s, first).last[2] == None;
  }

  /** Statements or tables that were planned and refused are read on the next tick
      exactly when its cycle gets to the pool sources and either the refusing cycle
      completed, the tick is forced, or the whole interval has passed again. A
      cycle that fails after the pool reads forgets the refusal. */
  lemma RefusalIsForgotten(pace: Pace, s: PoolState, i: TickInput, j: TickInput, p: PoolSource)
    requires pace.Valid() && s.Valid() && i.Valid() && j.Valid() && p < 2
    requires i.end != BeforePool && Planned(pace, s, i, p) && !Admitted(pace, s, i, p)
    ensures Admitted(pace, Next(pace, s, i), j, p) <==>
      (j.end != BeforePool
       && (i.end == Completed || j.forced || pace.secs[p] == 0 || j.now >= i.now + pace.secs[p] * SECOND))
  {
    var next := Next(pace, s, i);
    assert next.last[p] == LastAfter(pace, s, i, p) && next.starved[p] == StarvedAfter(pace, s, i, p);
  }

  /** The same for indexes, which may in addition have to give way on that tick. */
  lemma IndexRefusalIsForgotten(pace: Pace, s: PoolState, i: TickInput, j: TickInput)
    requires pace.Valid() && s.Valid() && i.Valid() && j.Valid()
    requires i.end != BeforePool && Planned(pace, s, i, 2) && !Admitted(pace, s, i, 2)
    ensures Admitted(pace, Next(pace, s, i), j, 2) <==>
      (j.end != BeforePool
       && (i.end == Completed || j.forced
           || ((pace.secs[2] == 0 || j.now >= i.now + pace.secs[2] * SECOND) && !GivesWay(pace, Next(pace, s, i), j))))
  {
    var next := Next(pace, s, i);
    assert next.last[2] == LastAfter(pace, s, i, 2) && next.starved[2] == StarvedAfter(pace, s, i, 2);
  }

  /** The budget is given in milliseconds: with 1000 of them, whoever is not forced
      or owed is admitted while less than a second was spent. */
  lemma BudgetIsInMilliseconds(budget: PoolBudget, p: PoolSource, spent: nat)
    requires budget.Valid() && budget.limit == 1000 && !budget.starved[p]
    ensures budget.Admits(p, spent, false) <==> spent < SECOND
  {
  }

  // ---- Sleeping ----

  /** `PlansSourceCache`: its own pace, outside the scheduler. */
  predicate PlansDue(nextRead: Option<nat>, now: nat) {
    nextRead.None? || now >= nextRead.value
  }

  function PlansDueIn(nextRead: Option<nat>, now: nat): Option<nat> {
    if nextRead.None? || Since(nextRead.value, now) == 0 then None else Some(Since(nextRead.value, now))
  }

  /** The age of the open segment, in nanoseconds here. */
  predicate SegmentExpired(openedAt: Option<nat>, now: nat, maxAge: nat) {
    openedAt.Some? && Since(now, openedAt.value) >= maxAge
  }

  function TimeUntilAge(openedAt: Option<nat>, now: nat, maxAge: nat): Option<nat> {
    if openedAt.None? then None else Some(Max(maxAge - Since(now, openedAt.value), 0))
  }

  predicate NotAfter(delay: nat, deadline: Option<nat>) {
    deadline.Some? ==> delay <= deadline.value
  }

  /** `timer_sleep_delay`: with the collection timer on, the least of the tick and
      of every deadline it consults; otherwise rotation's alone. */
  method TimerSleepDelay(now: nat, tickSecs: u64, maxAge: nat, sched: Scheduler, nextPlans: Option<nat>,
                         openedAt: Option<nat>, rotation: Option<nat>) returns (delay: Option<nat>)
    requires sched.Valid()
    ensures delay.None? <==> tickSecs == 0 && rotation.None?
    ensures delay.Some? ==> NotAfter(delay.value, rotation)
    ensures delay.Some? && tickSecs != 0 ==>
      && delay.value <= tickSecs * SECOND
      && (forall k: Kind :: NotAfter(delay.value, Remaining(sched.lastRead[k], sched.Secs(k), now)))
      && NotAfter(delay.value, PlansDueIn(nextPlans, now))
      && NotAfter(delay.value, TimeUntilAge(openedAt, now, maxAge))
    ensures delay.Some? ==>
      || delay == rotation
      || (tickSecs != 0 &&
          (|| delay.value == tickSecs * SECOND
           || delay == PlansDueIn(nextPlans, now)
           || delay == TimeUntilAge(openedAt, now, maxAge)
           || exists k: Kind :: delay == Remaining(sched.lastRead[k], sched.Secs(k), now)))
  {
    delay := None;
    if tickSecs != 0 {
      var least := tickSecs * SECOND;
      var nextDue := sched.NextElapsedDueIn(now);
      least := if nextDue.Some? then Min(least, nextDue.value) else least;
      var plans := PlansDueIn(nextPlans, now);
      least := if plans.Some? then Min(least, plans.value) else least;
      var age := TimeUntilAge(openedAt, now, maxAge);
      least := if age.Some? then Min(least, age.value) else least;
      delay := Some(least);
    }
    if rotation.Some? {
      delay := Some(if delay.Some? then Min(delay.value, rotation.value) else rotation.value);
    }
  }

  /** The loop never wakes for nothing: the tick or the rotation period has passed,
      or something is due that was not due before the sleep. */
  lemma DueAtWake(now: nat, delay: nat, tickSecs: u64, maxAge: nat, sched: Scheduler, nextPlans: Option<nat>,
                  openedAt: Option<nat>, rotation: Option<nat>)
    requires sched.Valid() && sched.ReadBy(now) && (openedAt.Some? ==> openedAt.value <= now)
    requires
      || Some(delay) == rotation || delay == tickSecs * SECOND
      || Some(delay) == PlansDueIn(nextPlans, now) || Some(delay) == TimeUntilAge(openedAt, now, maxAge)
      || exists k: Kind :: Some(delay) == Remaining(sched.lastRead[k], sched.Secs(k), now)
    ensures
      || Some(delay) == rotation || delay == tickSecs * SECOND
      || (PlansDue(nextPlans, now + delay) && !PlansDue(nextPlans, now))
      || SegmentExpired(openedAt, now + delay, maxAge)
      || exists k: Kind :: sched.lastRead[k].Some? && sched.IsDue(k, now + delay)
  {
    if k: Kind :| Some(delay) == Remaining(sched.lastRead[k], sched.Secs(k), now) {
      RemainingDecides(sched.lastRead[k], sched.Secs(k), now, now + delay);
    }
  }

  /** So no consulted deadline passes while the loop sleeps: no read source with a
      positive interval, no pending read of plans, and no segment age. */
  lemma NothingMissedAsleep(now: nat, delay: nat, at: nat, sched: Scheduler, nextPlans: Option<nat>,
                            openedAt: Option<nat>, maxAge: nat, kind: Kind)
    requires sched.Valid() && sched.ReadBy(now) && now <= at < now + delay
    requires forall k: Kind :: NotAfter(delay, Remaining(sched.lastRead[k], sched.Secs(k), now))
    requires NotAfter(delay, PlansDueIn(nextPlans, now)) && NotAfter(delay, TimeUntilAge(openedAt, now, maxAge))
    requires openedAt.Some? ==> openedAt.value <= now
    ensures sched.lastRead[kind].Some? && sched.Secs(kind) > 0 ==> !sched.IsDue(kind, at)
    ensures !PlansDue(nextPlans, now) ==> !PlansDue(nextPlans, at)
    ensures !SegmentExpired(openedAt, at, maxAge)
  {
    if sched.lastRead[kind].Some? && sched.Secs(kind) > 0 {
      RemainingDecides(sched.lastRead[kind], sched.Secs(kind), now, at);
      assert NotAfter(delay, Remaining(sched.lastRead[kind], sched.Secs(kind), now));
    }
  }
}
