/** What a new process can do with journals that a previous one left: which frames
    are read, which of several attempts publishes, and when a start succeeds. */
module Recoveries {
  import opened Machine
  import opened Bounds
  import opened Ledger
  import opened Journals
  import opened Segments

  /** A journal that was moved away and not yet quarantined. */
  datatype Evidence = Evidence(id: int, frames: seq<Part>)

  /** The frames of a damaged file that the scan verifies. */
  function Verified(frames: seq<Part>, verified: seq<bool>): seq<Part> {
    if frames == [] then []
    else
      var n := |frames| - 1;
      Verified(frames[..n], verified) + if n < |verified| && verified[n] then [frames[n]] else []
  }

  lemma {:induction false} VerifiedAreFrames(frames: seq<Part>, verified: seq<bool>)
    ensures Sub(Verified(frames, verified), frames)
  {
    if frames == [] {
      SubSelf([]);
    } else {
      var n := |frames| - 1;
      VerifiedAreFrames(frames[..n], verified);
      SubGrow(Verified(frames[..n], verified), frames[..n], frames[n]);
      assert frames[..n] + [frames[n]] == frames;
      assert n >= |verified| || !verified[n] ==> Verified(frames, verified) == Verified(frames[..n], verified);
    }
  }

  /** `read` holds exactly the frames that verified, in their order. */
  ghost predicate AllVerified(read: seq<Part>, frames: seq<Part>, verified: seq<bool>) {
    exists at: seq<nat> :: StandAt(read, frames, at) && Marks(at, |frames|, verified)
  }

  ghost predicate Marks(at: seq<nat>, n: nat, verified: seq<bool>) {
    forall i: nat :: i in at <==> i < n && i < |verified| && verified[i]
  }

  lemma {:induction false} VerifiedIsExact(frames: seq<Part>, verified: seq<bool>)
    ensures AllVerified(Verified(frames, verified), frames, verified)
  {
    if frames == [] {
      assert StandAt([], [], []) && Marks([], 0, verified);
    } else {
      var n := |frames| - 1;
      VerifiedIsExact(frames[..n], verified);
      var at: seq<nat> :| StandAt(Verified(frames[..n], verified), frames[..n], at) && Marks(at, n, verified);
      if n < |verified| && verified[n] {
        assert StandAt(Verified(frames, verified), frames, at + [n]);
        assert Marks(at + [n], n + 1, verified);
      } else {
        assert StandAt(Verified(frames, verified), frames, at);
        assert Marks(at, n + 1, verified);
      }
    }
  }

  /** What one attempt on evidence meets: the frames that verify, the one at which
      the replay breaks off, the seal, and the two resets that discard what was
      replayed. */
  datatype Attempt = Attempt(
    verified: seq<bool>, breaks: Option<nat>, seal: SealFaults, discard: SealFaults, again: SealFaults)
  {
    predicate Discards() {
      discard.Resets() || (discard.marker == RolledBack && again.Resets())
    }
  }

  /** How the active journal opens. */
  datatype Opening = Opens | Damaged | Unreadable

  /** What one start meets. `finished`: a write whose rollback failed turns out to
      be in the file. `pending`: the attempts on evidence of earlier starts. */
  datatype Recovery = Recovery(
    opening: Opening, finished: bool, first: SealFaults, rotated: bool, active: Attempt, pending: nat -> Attempt)

  /** What stands in the tree under the id of the recovered windows. */
  type Claim = Option<seq<Part>>

  function Standing(tree: Tree, id: int): Claim {
    if id in tree then Some(tree[id]) else None
  }

  predicate Free(claim: Claim, parts: seq<Part>) {
    claim.None? || claim.value == parts
  }

  /** One attempt on the frames of one file. */
  datatype Try = Try(frames: seq<Part>, a: Attempt) {
    function Read(): seq<Part> {
      Verified(frames, a.verified)
    }

    function Replayed(): seq<Part> {
      if a.breaks.Some? && a.breaks.value < |Read()| then Read()[..a.breaks.value] else Read()
    }

    predicate Whole() {
      a.breaks.Some? ==> a.breaks.value >= |Read()|
    }

    predicate Seals(claim: Claim) {
      Read() != [] && Whole() && a.seal.written && Free(claim, Read())
    }

    function Sealed(claim: Claim): Claim {
      if Seals(claim) then Some(Read()) else None
    }

    function After(claim: Claim): Claim {
      if Seals(claim) then Some(Read()) else claim
    }

    /** The journal is empty and sound again afterwards. */
    predicate Clears(claim: Claim) {
      || Replayed() == []
      || (!Whole() && a.again.Resets())
      || (Whole() && Seals(claim) && a.seal.Resets())
      || (Whole() && (Seals(claim) ==> a.seal.marker == RolledBack) && a.Discards())
    }
  }

  /** What is replayed are windows of the group, and one journal can hold them. */
  lemma ReplayedIsAmong(limits: Limits, initial: Tree, rules: Rules, group: seq<Part>, t: Try, maxLen: nat)
    requires RulesOf(limits, initial, rules) && rules.among(t.frames, group) && Storable(group, maxLen)
    ensures rules.among(t.Replayed(), group) && Storable(t.Read(), maxLen)
  {
    var read, replayed := t.Read(), t.Replayed();
    VerifiedAreFrames(t.frames, t.a.verified);
    assert Sub(t.frames, group);
    SubTransitive(read, t.frames, group);
    SubIsShorter(read, group);
    SubPrefix(read, |replayed|);
    assert read[..|replayed|] == replayed;
    SubTransitive(replayed, read, group);
  }

  /** Whether the start succeeds, and what was published. */
  datatype Recovered = Recovered(clear: bool, segment: Claim)

  function Then(segment: Claim, rest: Recovered): Recovered {
    Recovered(rest.clear, if segment.Some? then segment else rest.segment)
  }

  /** The attempts in turn, up to the first after which the journal is not clear. */
  function Recover(claim: Claim, tries: seq<Try>): Recovered
    decreases |tries|
  {
    if tries == [] then Recovered(true, None)
    else
      var t := tries[0];
      if t.Clears(claim) then Then(t.Sealed(claim), Recover(t.After(claim), tries[1..]))
      else Recovered(false, t.Sealed(claim))
  }

  function PendingTries(evidence: seq<Evidence>, pending: nat -> Attempt, n: nat): seq<Try>
    decreases |evidence|
  {
    if evidence == [] then []
    else [Try(evidence[0].frames, pending(n))] + PendingTries(evidence[1..], pending, n + 1)
  }

  lemma FirstInTurn(claim: Claim, evidence: seq<Evidence>, pending: nat -> Attempt, n: nat)
    requires evidence != []
    ensures var t := Try(evidence[0].frames, pending(n));
      Recover(claim, PendingTries(evidence, pending, n))
      == Then(t.Sealed(claim), if t.Clears(claim)
                               then Recover(t.After(claim), PendingTries(evidence[1..], pending, n + 1))
                               else Recovered(false, None))
  {
    var tries := PendingTries(evidence, pending, n);
    assert tries[1..] == PendingTries(evidence[1..], pending, n + 1);
  }

  /** A whole start: the active journal is sealed as it opens, or else rotated and
      replayed; then come the attempts on earlier evidence. */
  function Foretold(f: Recovery, claim: Claim, readable: seq<Part>, physical: seq<Part>, later: seq<Try>): Recovered {
    match f.opening
    case Unreadable => Recovered(false, None)
    case Damaged => Rotated(f, claim, physical, later)
    case Opens => Opened(f, claim, readable, later)
  }

  function Opened(f: Recovery, claim: Claim, frames: seq<Part>, later: seq<Try>): Recovered {
    if frames == [] then Recover(claim, later)
    else if !(f.first.written && Free(claim, frames)) then Rotated(f, claim, frames, later)
    else if f.first.Resets() then Then(Some(frames), Recover(Some(frames), later))
    else Then(Some(frames), Rotated(f, Some(frames), frames, later))
  }

  function Rotated(f: Recovery, claim: Claim, frames: seq<Part>, later: seq<Try>): Recovered {
    if f.rotated then Recover(claim, [Try(frames, f.active)] + later) else Recovered(false, None)
  }

  lemma RotatedInTurn(f: Recovery, claim: Claim, frames: seq<Part>, later: seq<Try>)
    requires f.rotated
    ensures var t := Try(frames, f.active);
      Rotated(f, claim, frames, later)
      == Then(t.Sealed(claim), if t.Clears(claim) then Recover(t.After(claim), later) else Recovered(false, None))
  {
    assert ([Try(frames, f.active)] + later)[1..] == later;
  }

  /** What sealing the journal as it opened publishes. */
  function OpenedGains(f: Recovery, claim: Claim, frames: seq<Part>): Claim {
    if f.first.written && Free(claim, frames) then Some(frames) else None
  }

  lemma OpenedInTurn(f: Recovery, claim: Claim, frames: seq<Part>, later: seq<Try>)
    requires frames != []
    ensures var gained := OpenedGains(f, claim, frames);
      Opened(f, claim, frames, later)
      == Then(gained, if gained.Some? && f.first.Resets() then Recover(gained, later)
                      else Rotated(f, if gained.Some? then gained else claim, frames, later))
  {
  }

  lemma ThenInTurn(a: Claim, b: Claim, rest: Recovered)
    ensures Then(a, Then(b, rest)) == Then(if a.Some? then a else b, rest)
  {
  }

  predicate SealsFirst(claim: Claim, tries: seq<Try>, i: nat)
    requires i < |tries|
  {
    tries[i].Seals(claim) && forall j :: 0 <= j < i ==> tries[j].Clears(claim) && !tries[j].Seals(claim)
  }

  lemma SealsNext(claim: Claim, tries: seq<Try>, i: nat)
    requires i + 1 < |tries| && tries[0].Clears(claim) && !tries[0].Seals(claim)
    ensures SealsFirst(claim, tries[1..], i) <==> SealsFirst(claim, tries, i + 1)
  {
    assert forall j :: 0 < j < |tries| ==> tries[j] == tries[1..][j - 1];
    assert forall j :: 0 <= j < |tries| - 1 ==> tries[1..][j] == tries[j + 1];
  }

  /** The first attempt that can seal against the tree as it was decides what is
      published, provided that those before it leave a clear journal. */
  lemma {:induction false} FirstSealDecides(claim: Claim, tries: seq<Try>, parts: seq<Part>)
    ensures Recover(claim, tries).segment == Some(parts) <==>
      exists i :: 0 <= i < |tries| && SealsFirst(claim, tries, i) && tries[i].Read() == parts
    decreases |tries|
  {
    if tries != [] {
      var t, rest := tries[0], tries[1..];
      if t.Clears(claim) && !t.Seals(claim) {
        FirstSealDecides(claim, rest, parts);
        if i :| 0 <= i < |rest| && SealsFirst(claim, rest, i) && rest[i].Read() == parts {
          SealsNext(claim, tries, i);
          assert tries[i + 1].Read() == parts;
        }
        if i :| 0 <= i < |tries| && SealsFirst(claim, tries, i) && tries[i].Read() == parts {
          SealsNext(claim, tries, i - 1);
          assert rest[i - 1].Read() == parts;
        }
      } else {
        assert SealsFirst(claim, tries, 0) <==> t.Seals(claim);
        if t.Seals(claim) {
          assert Recover(claim, tries).segment == Some(t.Read());
        }
      }
    }
  }

  /** A start succeeds and leaves its windows in quarantine exactly when every
      attempt leaves a clear journal and none can seal. */
  lemma {:induction false} NothingSeals(claim: Claim, tries: seq<Try>)
    ensures Recover(claim, tries) == Recovered(true, None) <==>
      forall i :: 0 <= i < |tries| ==> tries[i].Clears(claim) && !tries[i].Seals(claim)
  {
    if tries != [] {
      var t, rest := tries[0], tries[1..];
      if t.Clears(claim) && !t.Seals(claim) {
        NothingSeals(claim, rest);
        assert forall i :: 0 < i < |tries| ==> tries[i] == rest[i - 1];
        assert forall i :: 0 <= i < |rest| ==> rest[i] == tries[i + 1];
      }
    }
  }

  /** The attempts of a start after the first seal, if it has to rotate or not. */
  function Attempts(f: Recovery, readable: seq<Part>, physical: seq<Part>, later: seq<Try>): seq<Try> {
    if f.opening.Damaged? then [Try(physical, f.active)] + later
    else if readable != [] then [Try(readable, f.active)] + later
    else later
  }

  /** A start succeeds without publishing anything exactly when the journal can be
      read or rotated, it cannot be sealed as it opened, and no attempt can seal what
      it reads, though each leaves a clear journal. */
  lemma NothingPublished(f: Recovery, claim: Claim, readable: seq<Part>, physical: seq<Part>, later: seq<Try>)
    ensures Foretold(f, claim, readable, physical, later) == Recovered(true, None) <==>
      && !f.opening.Unreadable?
      && (f.opening.Damaged? || readable != [] ==> f.rotated)
      && (f.opening.Opens? && readable != [] ==> !(f.first.written && Free(claim, readable)))
      && var tries := Attempts(f, readable, physical, later);
         forall i :: 0 <= i < |tries| ==> tries[i].Clears(claim) && !tries[i].Seals(claim)
  {
    NothingSeals(claim, Attempts(f, readable, physical, later));
  }

  /** The windows of a segment come from one file: all of the journal, as it opened,
      or all frames that verified in one file. */
  ghost predicate FromOneFile(f: Recovery, parts: seq<Part>, readable: seq<Part>, tries: seq<Try>) {
    || (f.opening.Opens? && parts == readable)
    || exists i :: 0 <= i < |tries| && AllVerified(parts, tries[i].frames, tries[i].a.verified)
  }

  lemma RecoveredFromOneFile(f: Recovery, claim: Claim, readable: seq<Part>, tries: seq<Try>)
    ensures var o := Recover(claim, tries); o.segment.Some? ==> FromOneFile(f, o.segment.value, readable, tries)
  {
    var o := Recover(claim, tries);
    if o.segment.Some? {
      FirstSealDecides(claim, tries, o.segment.value);
      var i :| 0 <= i < |tries| && SealsFirst(claim, tries, i) && tries[i].Read() == o.segment.value;
      VerifiedIsExact(tries[i].frames, tries[i].a.verified);
    }
  }

  /** Whatever a start publishes, no frame that it could read is missing. */
  lemma PublishedFromOneFile(f: Recovery, claim: Claim, readable: seq<Part>, physical: seq<Part>, later: seq<Try>)
    ensures var o := Foretold(f, claim, readable, physical, later);
      o.segment.Some? ==> FromOneFile(f, o.segment.value, readable, Attempts(f, readable, physical, later))
  {
    RecoveredFromOneFile(f, claim, readable, Attempts(f, readable, physical, later));
  }

  // ---- What a start does to the account ----

  function Reread(s: Snapshot, found: Option<Part>): Snapshot {
    if found.Some? then Appended(s, found.value) else s
  }

  function Salvage(s: Snapshot, segment: Claim): Snapshot {
    if s.live != [] && segment.Some? then Salvaged(s, segment.value) else s
  }

  /** Evidence of windows that no attempt has published goes into quarantine. */
  function Quarantine(s: Snapshot): Snapshot {
    if s.live != [] then Discarded(s) else s
  }

  function Settled(s: Snapshot, o: Recovered): Snapshot {
    if o.clear then Quarantine(Salvage(s, o.segment)) else Salvage(s, o.segment)
  }

  lemma SalvagedInTurn(s: Snapshot, first: Claim, second: Claim)
    ensures Salvage(Salvage(s, first), second) == Salvage(s, if first.Some? then first else second)
  {
  }

  /** Attempts in turn settle what they settle together. */
  lemma SettledInTurn(s: Snapshot, first: Claim, rest: Recovered)
    ensures Settled(Salvage(s, first), rest) == Settled(s, Then(first, rest))
    ensures Quarantine(Quarantine(s)) == Quarantine(s) && Settled(s, Recovered(false, first)) == Salvage(s, first)
    ensures Settled(s, Recovered(true, first)) == Quarantine(Salvage(s, first))
  {
  }

  lemma SettledExtends(s: Snapshot, o: Recovered)
    ensures s.placed <= Settled(s, o).placed && Settled(s, o).accepted == s.accepted
  {
  }

  // ---- Replaying ----

  /** A fresh journal has room for each frame in turn. */
  lemma RoomForNext(frames: seq<Part>, n: nat, maxLen: nat)
    requires Storable(frames, maxLen) && n < |frames|
    ensures frames[..n] + [frames[n]] == frames[..n + 1]
    ensures n < MAX_JOURNAL_PARTS && Acceptable(frames[n]) && HasRoom(frames[..n], frames[n], maxLen)
  {
    assert frames[..n] + [frames[n]] == frames[..n + 1];
    SubPrefix(frames, n + 1);
    SubIsShorter(frames[..n + 1], frames);
    assert frames[n] in frames;
  }

  /** The next frame is appended; nothing refuses it. */
  method ReplayNext(journal: Journal, id: int, frames: seq<Part>, n: nat)
    requires journal.Valid() && !journal.poisoned && Storable(frames, journal.maxLen) && n < |frames|
    requires journal.parts == frames[..n] && (journal.parts != [] ==> journal.segmentId == Some(id))
    modifies journal
    ensures journal.Valid() && !journal.poisoned
    ensures journal.parts == frames[..n + 1] && journal.segmentId == Some(id)
  {
    RoomForNext(frames, n, journal.maxLen);
    var appended := journal.Append(id, frames[n], Durable);
  }

  /** `replay_into`: verified frames are appended one by one to a fresh journal. */
  method ReplayInto(journal: Journal, id: int, frames: seq<Part>, breaks: Option<nat>) returns (whole: bool)
    requires journal.Valid() && journal.parts == [] && !journal.poisoned && Storable(frames, journal.maxLen)
    modifies journal
    ensures journal.Valid() && !journal.poisoned && (journal.parts != [] ==> journal.segmentId == Some(id))
    ensures whole <==> (breaks.Some? ==> breaks.value >= |frames|)
    ensures journal.parts == if whole then frames else frames[..breaks.value]
  {
    for n := 0 to |frames|
      invariant journal.Valid() && !journal.poisoned && journal.parts == frames[..n]
      invariant journal.parts != [] ==> journal.segmentId == Some(id)
      invariant breaks.Some? ==> breaks.value >= n
    {
      if breaks == Some(n) {
        return false;
      }
      ReplayNext(journal, id, frames, n);
    }
    assert frames[..|frames|] == frames;
    whole := true;
  }
}
