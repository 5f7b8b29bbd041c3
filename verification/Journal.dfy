/** The append-only journal of the open segment: an identity, frames that each
    hold one encoded window, and a reset that is committed by a marker. */
module Journals {
  import opened Machine
  import opened Calendar
  import opened Ledger

  /** Magic, version, state, segment id, body length and checksum. */
  const JOURNAL_HEADER_LEN: nat := 8 + 4 + 4 + 8 + 8 + 4

  /** Magic, part length and checksum. */
  const FRAME_HEADER_LEN: nat := 4 + 8 + 4

  /** Magic, previous length, segment id and header checksum, and its own checksum. */
  const RESET_MARKER_LEN: nat := 8 + 8 + 8 + 4 + 4

  const MAX_JOURNAL_PARTS: nat := 1_000_000
  const MAX_PART_LEN: nat := 64 * 1024 * 1024

  /** One encoded window, and the timestamp of its collection. */
  datatype Part = Part(ts: int, window: Window, bodyLen: nat, intact: bool)

  /** How a write to the file ends: durably, undone, or with the undo failing too. */
  datatype Write = Durable | RolledBack | RollbackFails

  /** What the file holds besides the frames this handle knows. A write whose
      rollback failed may be there or not, in whole or in part. */
  datatype FileState = Frames | ResetCommitted | TornAppend(id: int, part: Part) | TornReset

  datatype JournalError =
    | Poisoned
    | SegmentIdMismatch(expected: int, got: int)
    | PartTooLarge(len: nat, max: nat)
    | InvalidPart
    | TooManyParts(max: nat)
    | Full(len: nat, max: nat)
    | Io
    | RollbackFailed
    | ResetIncomplete

  /** A timestamp with a four-digit UTC year; see `Calendar.LayoutRange`. */
  predicate IsSegmentId(ts: int) {
    MIN_ID <= ts <= MAX_ID
  }

  /** Those are exactly the ids that the layout can name. */
  lemma SegmentIdsAreInLayout(ts: int)
    ensures IsSegmentId(ts) <==> InLayout(ts)
  {
    LayoutRange(ts);
  }

  /** The first `n` frames, each with its header. */
  function FramesLen(parts: seq<Part>, n: nat): nat
    requires n <= |parts|
  {
    if n == 0 then 0 else FramesLen(parts, n - 1) + FRAME_HEADER_LEN + parts[n - 1].bodyLen
  }

  function JournalLen(parts: seq<Part>): nat {
    JOURNAL_HEADER_LEN + FramesLen(parts, |parts|)
  }

  lemma {:induction false} SameFrames(a: seq<Part>, b: seq<Part>, n: nat)
    requires n <= |a| && n <= |b| && a[..n] == b[..n]
    ensures FramesLen(a, n) == FramesLen(b, n)
  {
    if n > 0 {
      assert a[..n - 1] == a[..n][..n - 1] && b[..n - 1] == b[..n][..n - 1];
      assert a[n - 1] == a[..n][n - 1] && b[n - 1] == b[..n][n - 1];
      SameFrames(a, b, n - 1);
    }
  }

  lemma FramesGrow(parts: seq<Part>, part: Part)
    ensures JournalLen(parts + [part]) == JournalLen(parts) + FRAME_HEADER_LEN + part.bodyLen
  {
    assert (parts + [part])[..|parts|] == parts[..|parts|];
    SameFrames(parts + [part], parts, |parts|);
  }

  /** A part is admitted while a reset marker still fits behind it. */
  predicate HasRoom(parts: seq<Part>, part: Part, maxLen: nat) {
    JournalLen(parts + [part]) + RESET_MARKER_LEN <= maxLen
  }

  predicate Acceptable(part: Part) {
    part.bodyLen <= MAX_PART_LEN && part.intact
  }

  /** Frames that one journal can hold, with the marker that resets it. */
  predicate Storable(parts: seq<Part>, maxLen: nat) {
    && (parts != [] ==> JournalLen(parts) + RESET_MARKER_LEN <= maxLen)
    && |parts| <= MAX_JOURNAL_PARTS
    && (forall p :: p in parts ==> Acceptable(p))
  }

  class Journal {
    const maxLen: nat
    var end: nat
    var parts: seq<Part>
    var segmentId: Option<int>
    var poisoned: bool
    var file: FileState

    /** The reset marker of every reachable journal fits, whatever was appended. */
    ghost predicate Valid()
      reads this
    {
      && JOURNAL_HEADER_LEN <= maxLen <= USIZE_MAX
      && end == JournalLen(parts)
      && (parts == [] <==> segmentId.None?)
      && Storable(parts, maxLen)
      && (poisoned <==> file != Frames)
      && (file.TornAppend? ==> Storable(parts + [file.part], maxLen) && (parts != [] ==> segmentId == Some(file.id)))
    }

    /** The frames that are physically in the file; `finished` says whether a write
        whose rollback failed is there in whole. */
    function Physical(finished: bool): seq<Part>
      reads this
    {
      if file.TornAppend? && finished then parts + [file.part] else parts
    }

    /** What a new process reads from a file that it can open. */
    function Readable(finished: bool): seq<Part>
      reads this
    {
      if file == ResetCommitted || (file == TornReset && finished) then [] else Physical(finished)
    }

    /** The segment id that the header carries, as far as there is one. */
    function Identity(): Option<int>
      reads this
    {
      if segmentId.None? && file.TornAppend? then Some(file.id) else segmentId
    }

    /** What `append` reports before it touches the file, the checks in order. */
    ghost function Refusal(id: int, part: Part): Option<JournalError>
      reads this
    {
      if poisoned then Some(Poisoned)
      else if segmentId.Some? && segmentId.value != id then Some(SegmentIdMismatch(segmentId.value, id))
      else if part.bodyLen > MAX_PART_LEN then Some(PartTooLarge(part.bodyLen, MAX_PART_LEN))
      else if !part.intact then Some(InvalidPart)
      else if |parts| >= MAX_JOURNAL_PARTS then Some(TooManyParts(MAX_JOURNAL_PARTS))
      else if !HasRoom(parts, part, maxLen) then Some(Full(JournalLen(parts), maxLen))
      else None
    }

    constructor (maxLen: nat)
      requires JOURNAL_HEADER_LEN <= maxLen <= USIZE_MAX
      ensures Valid() && parts == [] && !poisoned && this.maxLen == maxLen
    {
      this.maxLen := maxLen;
      end, parts, segmentId := JOURNAL_HEADER_LEN, [], None;
      poisoned, file := false, Frames;
    }

    /** The checks of `append`, in order, before the file is touched. */
    method Check(id: int, part: Part) returns (refused: Option<JournalError>)
      requires Valid()
      ensures refused == Refusal(id, part)
      ensures refused.None? ==> end + FRAME_HEADER_LEN + part.bodyLen + RESET_MARKER_LEN <= maxLen
    {
      FramesGrow(parts, part);
      if poisoned {
        return Some(Poisoned);
      }
      if segmentId.Some? && segmentId.value != id {
        return Some(SegmentIdMismatch(segmentId.value, id));
      }
      if part.bodyLen > MAX_PART_LEN {
        return Some(PartTooLarge(part.bodyLen, MAX_PART_LEN));
      }
      if !part.intact {
        return Some(InvalidPart);
      }
      if |parts| >= MAX_JOURNAL_PARTS {
        return Some(TooManyParts(MAX_JOURNAL_PARTS));
      }
      var nextEnd := end + (FRAME_HEADER_LEN + part.bodyLen);
      if nextEnd > USIZE_MAX || nextEnd + RESET_MARKER_LEN > USIZE_MAX || nextEnd + RESET_MARKER_LEN > maxLen {
        return Some(Full(end, maxLen));
      }
      refused := None;
    }

    /** Appends one part, or leaves the journal as it was. */
    method Append(id: int, part: Part, write: Write) returns (r: Result<nat, JournalError>)
      requires Valid()
      modifies this
      ensures Valid()
      ensures r.Ok? <==> old(Refusal(id, part)).None? && write == Durable
      ensures r.Ok? ==> parts == old(parts) + [part] && segmentId == Some(id)
      ensures r.Ok? ==> r.value == old(end) + FRAME_HEADER_LEN
      ensures r.Err? ==> parts == old(parts) && segmentId == old(segmentId)
      ensures r.Err? ==> r.error == if old(Refusal(id, part)).Some? then old(Refusal(id, part)).value
                                    else if write == RolledBack then Io else RollbackFailed
      ensures file == if old(Refusal(id, part)).None? && write == RollbackFails then TornAppend(id, part) else old(file)
      ensures r.Err? && write != RollbackFails ==> unchanged(this)
    {
      var refused := Check(id, part);
      if refused.Some? {
        return Err(refused.value);
      }
      if write == RolledBack {
        return Err(Io);
      }
      if write == RollbackFails {
        poisoned, file := true, TornAppend(id, part);
        FramesGrow(parts, part);
        return Err(RollbackFailed);
      }
      FramesGrow(parts, part);
      r := Ok(end + FRAME_HEADER_LEN);
      end := end + (FRAME_HEADER_LEN + part.bodyLen);
      parts := parts + [part];
      segmentId := Some(id);
    }

    /** Commits a marker and empties the file. It never runs out of room: every
        append reserved the marker. Once the marker is durable, a failure only
        leaves the emptying to the next opening of the file. */
    method Reset(marker: Write, emptied: bool) returns (r: Result<(), JournalError>)
      requires Valid()
      modifies this
      ensures Valid()
      ensures r.Ok? <==> !old(poisoned) && (old(parts) == [] || (marker == Durable && emptied))
      ensures r.Ok? ==> parts == [] && file == Frames
      ensures r.Err? ==> parts == old(parts) && segmentId == old(segmentId)
      ensures r.Err? ==> r.error == if old(poisoned) then Poisoned else if marker == RolledBack then Io
                                    else if marker == RollbackFails then RollbackFailed else ResetIncomplete
      ensures r.Err? && !old(poisoned) ==>
        file == if marker == Durable then ResetCommitted else if marker == RolledBack then Frames else TornReset
      ensures old(poisoned) ==> file == old(file)
    {
      if poisoned {
        return Err(Poisoned);
      }
      if parts == [] {
        return Ok(());
      }
      if end + RESET_MARKER_LEN > USIZE_MAX || end + RESET_MARKER_LEN > maxLen {
        return Err(Full(end, maxLen));
      }
      if marker != Durable {
        if marker == RolledBack {
          return Err(Io);
        }
        poisoned, file := true, TornReset;
        return Err(RollbackFailed);
      }
      if !emptied {
        poisoned, file := true, ResetCommitted;
        return Err(ResetIncomplete);
      }
      end, parts, segmentId := JOURNAL_HEADER_LEN, [], None;
      r := Ok(());
    }

    /** A new process opens the file: a committed reset is completed first, and a
        write whose rollback failed may turn out to be there. */
    method Reopen(finished: bool)
      requires Valid()
      modifies this
      ensures Valid() && !poisoned && parts == old(Readable(finished))
      ensures segmentId == if parts == [] then None else old(Identity())
      ensures old(file) == Frames ==> parts == old(parts)
      ensures old(file) == ResetCommitted ==> parts == []
      ensures old(file) == TornReset ==> parts == if finished then [] else old(parts)
      ensures old(file).TornAppend? ==> parts == old(parts) + if finished then [old(file).part] else []
    {
      var id := Identity();
      parts := Readable(finished);
      end, segmentId := JournalLen(parts), if parts == [] then None else id;
      poisoned, file := false, Frames;
    }

    /** A fresh file takes the place of this one, which becomes evidence. */
    method Rotate(finished: bool) returns (frames: seq<Part>)
      requires Valid()
      modifies this
      ensures Valid() && !poisoned && parts == []
      ensures frames == old(Physical(finished))
      ensures frames == old(parts) + if old(file).TornAppend? && finished then [old(file).part] else []
    {
      frames := Physical(finished);
      end, parts, segmentId := JOURNAL_HEADER_LEN, [], None;
      poisoned, file := false, Frames;
    }
  }
}
