/** How completely a collection read its source: counters that saturate, and
    the marker a reader sees. */
module Coverage {
  import opened Machine

  /** What became of one partition (database) of a source. */
  datatype Outcome =
    | Read(collected: usize, sourceTotal: u64)
    | TimedOut
    | PermissionDenied
    | PermissionRestricted
    | OtherFailure
    | CollectorLoss

  /** The facts a marker row and a coverage row publish. */
  datatype Marker = Marker(
    readState: nat, visibility: nat, sourceTotal: u32, collected: u32, exactTotal: Option<nat>, reason: nat)

  // ---- Exact tallies of a history, without any saturation ----

  /** Rows and failures of a history, each summed exactly. */
  datatype Tally = Tally(
    total: nat, collected: nat, timeouts: nat, denied: nat, permissions: nat, others: nat, losses: nat)

  const NOTHING := Tally(0, 0, 0, 0, 0, 0, 0)

  function Plus(t: Tally, o: Outcome): Tally {
    match o
    case Read(collected, sourceTotal) => t.(total := t.total + sourceTotal, collected := t.collected + collected)
    case TimedOut => t.(timeouts := t.timeouts + 1)
    case PermissionDenied => t.(denied := t.denied + 1, permissions := t.permissions + 1)
    case PermissionRestricted => t.(permissions := t.permissions + 1)
    case OtherFailure => t.(others := t.others + 1)
    case CollectorLoss => t.(losses := t.losses + 1)
  }

  function TallyOf(h: seq<Outcome>): Tally {
    if h == [] then NOTHING else Plus(TallyOf(h[..|h| - 1]), h[|h| - 1])
  }

  /** A loss that later outcomes cannot mend. */
  predicate PermanentLoss(t: Tally) {
    || t.losses > 0
    || t.timeouts > U32_MAX || t.permissions > U32_MAX || t.others > U32_MAX
    || t.total > U32_MAX || t.collected > U32_MAX
  }

  predicate Lossy(t: Tally) {
    PermanentLoss(t) || t.collected > t.total
  }

  function Severity(t: Tally): nat {
    if Lossy(t) then 4
    else if t.timeouts > 0 || t.others > 0 then 3
    else if t.permissions > 0 then 2
    else if t.total > t.collected then 1
    else 0
  }

  /** The marker of a history, from its exact tally alone. */
  function MarkerOf(t: Tally): Marker {
    Marker(
      Severity(t),
      if Severity(t) >= 3 then 2 else if Severity(t) == 2 then 1 else 0,
      Min(Max(t.total, t.collected), U32_MAX),
      Min(t.collected, U32_MAX),
      if Lossy(t) || t.timeouts + t.denied + t.others > 0 then None else Some(t.total),
      if t.timeouts > 0 then 1 else if t.permissions > 0 then 2 else if t.others > 0 || Lossy(t) then 3 else 0)
  }

  // ---- The accumulator ----

  class SourceCoverage {
    var attempted: bool
    var total: u64
    var collected: u64
    var unknownTotal: bool
    var timeouts: u32
    var permissionSkips: u32
    var otherSkips: u32
    var collectorLoss: bool
    ghost var history: seq<Outcome>

    /** Whether the read was begun at all. */
    ghost const begun: bool

    /** The saturating counters against the exact tally of what was recorded. */
    ghost predicate Valid()
      reads this
    {
      (attempted <==> begun || history != []) && Counts(TallyOf(history))
    }

    predicate Counts(t: Tally)
      reads this
    {
      && total == Min(t.total, U64_MAX) && collected == Min(t.collected, U64_MAX)
      && timeouts == Min(t.timeouts, U32_MAX) && permissionSkips == Min(t.permissions, U32_MAX)
      && otherSkips == Min(t.others, U32_MAX)
      && (collectorLoss <==>
            t.losses > 0 || t.total > U64_MAX || t.collected > U64_MAX
            || t.timeouts > U32_MAX || t.permissions > U32_MAX || t.others > U32_MAX)
      && (t.timeouts + t.denied + t.others + t.losses > 0 ==> unknownTotal)
      && (unknownTotal ==> t.timeouts + t.denied + t.others + t.losses > 0 || collectorLoss)
      && t.denied <= t.permissions
    }

    /** Start one source attempt before reading any physical source. */
    constructor NewAttempt()
      ensures Valid() && begun && history == []
    {
      attempted, total, collected, unknownTotal := true, 0, 0, false;
      timeouts, permissionSkips, otherSkips, collectorLoss := 0, 0, 0, false;
      history, begun := [], true;
    }

    /** A source that belongs to the cycle but was not read so far. */
    constructor NotAttempted()
      ensures Valid() && !begun && history == []
    {
      attempted, total, collected, unknownTotal := false, 0, 0, false;
      timeouts, permissionSkips, otherSkips, collectorLoss := 0, 0, 0, false;
      history, begun := [], false;
    }

    method RecordSuccess(rows: usize, sourceTotal: u64)
      requires Valid()
      modifies this
      ensures Valid() && history == old(history) + [Read(rows, sourceTotal)]
    {
      attempted := true;
      AddRead(rows, sourceTotal, TallyOf(history));
      TallyGrows(history, Read(rows, sourceTotal));
      history := history + [Read(rows, sourceTotal)];
    }

    /** The checked additions of `record_success`. */
    method AddRead(rows: usize, sourceTotal: u64, ghost t: Tally)
      requires Counts(t)
      modifies this`total, this`collected, this`collectorLoss, this`unknownTotal
      ensures Counts(Plus(t, Read(rows, sourceTotal)))
    {
      if total + sourceTotal <= U64_MAX {
        total := total + sourceTotal;
      } else {
        collectorLoss := true;
        total := U64_MAX;
      }
      if collected + rows <= U64_MAX {
        collected := collected + rows;
      } else {
        collectorLoss := true;
        collected := U64_MAX;
      }
      if collectorLoss {
        unknownTotal := true;
      }
    }

    method RecordTimeout()
      requires Valid()
      modifies this
      ensures Valid() && history == old(history) + [TimedOut]
    {
      ghost var tally := Plus(TallyOf(history), TimedOut);
      attempted, unknownTotal := true, true;
      if timeouts < U32_MAX {
        timeouts := timeouts + 1;
      } else {
        collectorLoss := true;
      }
      assert Counts(tally);
      TallyGrows(history, TimedOut);
      history := history + [TimedOut];
    }

    method RecordPermissionFailure()
      requires Valid()
      modifies this
      ensures Valid() && history == old(history) + [PermissionDenied]
    {
      ghost var tally := Plus(TallyOf(history), PermissionDenied);
      attempted, unknownTotal := true, true;
      if permissionSkips < U32_MAX {
        permissionSkips := permissionSkips + 1;
      } else {
        collectorLoss := true;
      }
      assert Counts(tally);
      TallyGrows(history, PermissionDenied);
      history := history + [PermissionDenied];
    }

    method RecordPermissionRestriction()
      requires Valid()
      modifies this
      ensures Valid() && history == old(history) + [PermissionRestricted]
    {
      ghost var tally := Plus(TallyOf(history), PermissionRestricted);
      attempted := true;
      if permissionSkips < U32_MAX {
        permissionSkips := permissionSkips + 1;
      } else {
        collectorLoss := true;
      }
      assert Counts(tally);
      TallyGrows(history, PermissionRestricted);
      history := history + [PermissionRestricted];
    }

    method RecordOtherFailure()
      requires Valid()
      modifies this
      ensures Valid() && history == old(history) + [OtherFailure]
    {
      ghost var tally := Plus(TallyOf(history), OtherFailure);
      attempted, unknownTotal := true, true;
      if otherSkips < U32_MAX {
        otherSkips := otherSkips + 1;
      } else {
        collectorLoss := true;
      }
      assert Counts(tally);
      TallyGrows(history, OtherFailure);
      history := history + [OtherFailure];
    }

    method RecordCollectorLoss()
      requires Valid()
      modifies this
      ensures Valid() && history == old(history) + [CollectorLoss]
    {
      ghost var tally := Plus(TallyOf(history), CollectorLoss);
      attempted, unknownTotal, collectorLoss := true, true, true;
      assert Counts(tally);
      TallyGrows(history, CollectorLoss);
      history := history + [CollectorLoss];
    }

    predicate HasCollectorLoss()
      reads this
    {
      collectorLoss || total > U32_MAX || collected > U32_MAX || collected > total
    }

    function WireTotal(): u64
      reads this
    {
      if total < collected then collected else total
    }

    function ReadState(): (nat, nat)
      reads this
    {
      if HasCollectorLoss() then (4, 2)
      else if timeouts > 0 || otherSkips > 0 then (3, 2)
      else if permissionSkips > 0 then (2, 1)
      else if unknownTotal then (3, 2)
      else if total > collected then (1, 0)
      else (0, 0)
    }

    function ExactTotal(): Option<nat>
      reads this
    {
      if !attempted || unknownTotal || HasCollectorLoss() then None else Some(total)
    }

    /** Without an attempt no total is claimed, and with one every recorded outcome
        counts as an attempt. */
    lemma AttemptedMeansRecorded()
      requires Valid()
      ensures !begun && history == [] ==> ExactTotal() == None
      ensures attempted <==> begun || history != []
    {
    }

    function Reason(): nat
      reads this
    {
      if timeouts > 0 then 1
      else if permissionSkips > 0 then 2
      else if otherSkips > 0 || unknownTotal || HasCollectorLoss() then 3
      else 0
    }

    /** The published facts are those of the exact tally, although every counter
        saturates and `unknownTotal` depends on the order of the outcomes. */
    function SnapshotMarker(): (m: Marker)
      requires Valid() && (begun || history != [])
      reads this
      ensures m == MarkerOf(TallyOf(history))
    {
      var (state, visibility) := ReadState();
      Marker(state, visibility, Min(WireTotal(), U32_MAX), Min(collected, U32_MAX), ExactTotal(), Reason())
    }
  }

  lemma TallyGrows(h: seq<Outcome>, o: Outcome)
    ensures TallyOf(h + [o]) == Plus(TallyOf(h), o)
  {
    assert (h + [o])[..|h|] == h;
  }

  // ---- Properties over every history ----

  lemma PlusCommutes(t: Tally, a: Outcome, b: Outcome)
    ensures Plus(Plus(t, a), b) == Plus(Plus(t, b), a)
  {
  }

  lemma {:induction false} TallyRemove(h: seq<Outcome>, i: nat)
    requires i < |h|
    ensures TallyOf(h) == Plus(TallyOf(h[..i] + h[i + 1..]), h[i])
  {
    var last := |h| - 1;
    var init := h[..last];
    if i == last {
      assert h[..i] + h[i + 1..] == init;
    } else {
      var others := init[..i] + init[i + 1..];
      TallyRemove(init, i);
      assert others + [h[last]] == h[..i] + h[i + 1..];
      TallyGrows(others, h[last]);
      PlusCommutes(TallyOf(others), h[i], h[last]);
    }
  }

  lemma FindAndRemove(b: seq<Outcome>, o: Outcome) returns (i: nat, others: seq<Outcome>)
    requires o in multiset(b)
    ensures i < |b| && b[i] == o && others == b[..i] + b[i + 1..]
    ensures multiset(b) == multiset(others) + multiset{o}
  {
    i :| 0 <= i < |b| && b[i] == o;
    others := b[..i] + b[i + 1..];
    assert b == b[..i] + [o] + b[i + 1..];
  }

  lemma {:induction false} TallyPermutes(a: seq<Outcome>, b: seq<Outcome>)
    requires multiset(a) == multiset(b)
    ensures TallyOf(a) == TallyOf(b)
  {
    assert |a| == |multiset(a)| == |multiset(b)| == |b|;
    if a != [] {
      var init, o := a[..|a| - 1], a[|a| - 1];
      assert a == init + [o];
      assert o in multiset(a);
      var i, others := FindAndRemove(b, o);
      assert multiset(init) == multiset(a) - multiset{o};
      assert multiset(others) == multiset(b) - multiset{o};
      TallyPermutes(init, others);
      TallyRemove(b, i);
    }
  }

  /** The published facts do not depend on the order the partitions were read in. */
  lemma MarkerIgnoresOrder(a: seq<Outcome>, b: seq<Outcome>)
    requires multiset(a) == multiset(b)
    ensures MarkerOf(TallyOf(a)) == MarkerOf(TallyOf(b))
  {
    TallyPermutes(a, b);
  }

  /** A partition that claims more rows than its source holds can hide the
      severity of what was recorded before it. */
  predicate HidesSeverity(h: seq<Outcome>, o: Outcome) {
    var t, u := TallyOf(h), TallyOf(h + [o]);
    && !PermanentLoss(u)
    && ((t.collected > t.total && u.collected <= u.total)
        || (t.collected < t.total && u.collected == u.total && u.timeouts + u.others + u.permissions == 0))
  }

  /** Recording an outcome lowers the severity exactly in that case. */
  lemma SeverityDrops(h: seq<Outcome>, o: Outcome)
    ensures Severity(TallyOf(h + [o])) < Severity(TallyOf(h)) <==> HidesSeverity(h, o)
  {
    TallyGrows(h, o);
  }

  predicate Consistent(h: seq<Outcome>) {
    forall i :: 0 <= i < |h| && h[i].Read? ==> h[i].collected <= h[i].sourceTotal
  }

  lemma {:induction false} ConsistentTally(h: seq<Outcome>)
    requires Consistent(h)
    ensures TallyOf(h).collected <= TallyOf(h).total
  {
    if h != [] {
      ConsistentTally(h[..|h| - 1]);
    }
  }

  /** While every partition collects at most what its source holds, severity only rises. */
  lemma SeverityRises(h: seq<Outcome>, o: Outcome)
    requires Consistent(h + [o])
    ensures Severity(TallyOf(h)) <= Severity(TallyOf(h + [o]))
  {
    assert forall i :: 0 <= i < |h| ==> (h + [o])[i] == h[i];
    assert (h + [o])[|h|] == o;
    ConsistentTally(h);
    TallyGrows(h, o);
    SeverityDrops(h, o);
  }

  /** Without that condition severity can fall from "loss" to "limited". */
  lemma SeverityCanFall(h: seq<Outcome>, o: Outcome)
    requires |h| == 1 && h[0] == Read(2, 1) && o == Read(0, 5)
    ensures Severity(TallyOf(h)) == 4 && Severity(TallyOf(h + [o])) == 1
  {
    TallyGrows(h, o);
  }

  lemma UnreadHidesTotal(h: seq<Outcome>, o: Outcome)
    requires o in h && !o.Read? && !o.PermissionRestricted?
    ensures MarkerOf(TallyOf(h)).exactTotal.None?
  {
    var i :| 0 <= i < |h| && h[i] == o;
    TallyRemove(h, i);
  }

  /** A total is published as exact only when it is the true sum over every
      partition and each of them was read; the wire counters stay readable. */
  lemma ExactTotalIsTrue(h: seq<Outcome>)
    ensures var (t, m) := (TallyOf(h), MarkerOf(TallyOf(h)));
            && m.collected <= m.sourceTotal
            && (m.exactTotal.Some? ==>
                  && m.exactTotal.value == t.total == m.sourceTotal && t.collected == m.collected
                  && forall o :: o in h ==> o.Read? || o.PermissionRestricted?)
  {
    if o :| o in h && !o.Read? && !o.PermissionRestricted? {
      UnreadHidesTotal(h, o);
    }
  }

  // ---- Choosing between several failed connections ----

  datatype Attempt = Attempt(ts: int, tally: Tally)

  /** No attempt is worse than attempt `i`, and every earlier one is better. */
  predicate IsEarliestWorst(seen: seq<Attempt>, i: nat)
    requires i < |seen|
  {
    && (forall k :: 0 <= k < |seen| ==> Severity(seen[k].tally) <= Severity(seen[i].tally))
    && (forall k :: 0 <= k < i ==> Severity(seen[k].tally) < Severity(seen[i].tally))
  }

  /** Of the attempts seen so far the earliest of the worst is kept. */
  ghost predicate KeepsWorst(seen: seq<Attempt>, kept: Option<Attempt>) {
    if seen == [] then kept == None
    else exists i :: 0 <= i < |seen| && IsEarliestWorst(seen, i) && kept == Some(seen[i])
  }

  /** `prefer_attempt`: one more attempt, and the earliest of the worst is kept. */
  method PreferAttempt(ghost seen: seq<Attempt>, current: Option<Attempt>, candidate: Attempt)
    returns (kept: Option<Attempt>)
    requires KeepsWorst(seen, current)
    ensures KeepsWorst(seen + [candidate], kept)
  {
    kept := current;
    ghost var all := seen + [candidate];
    if current.None? || Severity(candidate.tally) > Severity(current.value.tally) {
      kept := Some(candidate);
      assert IsEarliestWorst(all, |seen|);
    } else {
      ghost var i :| 0 <= i < |seen| && IsEarliestWorst(seen, i) && current == Some(seen[i]);
      assert IsEarliestWorst(all, i) && kept == Some(all[i]);
    }
  }

  /** The attempts of one read, in the order in which its connections fail. */
  method WorstOf(attempts: seq<Attempt>) returns (kept: Option<Attempt>)
    ensures KeepsWorst(attempts, kept)
  {
    kept := None;
    for n := 0 to |attempts|
      invariant KeepsWorst(attempts[..n], kept)
    {
      kept := PreferAttempt(attempts[..n], kept, attempts[n]);
      assert attempts[..n + 1] == attempts[..n] + [attempts[n]];
    }
    assert attempts[..|attempts|] == attempts;
  }

  /** The worst attempt is kept, the earliest of several, and no other could be. */
  lemma WorstAttemptIsKept(attempts: seq<Attempt>, kept: Option<Attempt>) returns (i: nat)
    requires attempts != [] && KeepsWorst(attempts, kept)
    ensures i < |attempts| && kept == Some(attempts[i])
    ensures forall k :: 0 <= k < |attempts| ==> Severity(attempts[k].tally) <= Severity(attempts[i].tally)
    ensures forall k :: 0 <= k < i ==> Severity(attempts[k].tally) < Severity(attempts[i].tally)
    ensures forall other :: KeepsWorst(attempts, other) ==> other == kept
  {
    i :| 0 <= i < |attempts| && IsEarliestWorst(attempts, i) && kept == Some(attempts[i]);
    forall other | KeepsWorst(attempts, other)
      ensures other == kept
    {
      var j :| 0 <= j < |attempts| && IsEarliestWorst(attempts, j) && other == Some(attempts[j]);
      assert i == j;
    }
  }
}
