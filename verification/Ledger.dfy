/** What a sealed segment would hold: rows per section type and one deduplicated
    dictionary, recomputed from scratch over everything appended so far. */
module Ledger {
  import opened Machine
  import opened Bounds

  const DICT_STRINGS_TYPE_ID: nat := 3_001_001
  const DICT_BLOBS_TYPE_ID: nat := 3_002_001

  // ---- The contents of one collection window ----

  datatype Section = Section(typeId: u32, rows: u32, children: usize) {
    predicate IsData() {
      typeId != DICT_STRINGS_TYPE_ID && typeId != DICT_BLOBS_TYPE_ID
    }
  }

  datatype EntrySnapshot = EntrySnapshot(
    strId: nat, placement: Placement, stored: seq<byte>, fullLen: nat, truncated: bool, sha: Option<seq<byte>>)

  datatype DictValue =
    | StringValue(bytes: seq<byte>)
    | BlobValue(bytes: seq<byte>, fullLen: nat, truncated: bool, sha: Option<seq<byte>>)
  {
    function Placement(): Placement {
      if StringValue? then Strings else Blobs
    }

    predicate IsTruncated() {
      BlobValue? && truncated
    }

    /** The field-by-field comparison of `matches_snapshot`. */
    predicate MatchesSnapshot(entry: EntrySnapshot) {
      match this
      case StringValue(bytes) => entry.placement == Strings && bytes == entry.stored
      case BlobValue(bytes, fullLen, truncated, sha) =>
        && entry.placement == Blobs && bytes == entry.stored
        && fullLen == entry.fullLen && truncated == entry.truncated && sha == entry.sha
    }
  }

  function FromSnapshot(entry: EntrySnapshot): (v: DictValue)
    ensures v.Placement() == entry.placement
  {
    match entry.placement
    case Strings => StringValue(entry.stored)
    case Blobs => BlobValue(entry.stored, entry.fullLen, entry.truncated, entry.sha)
  }

  /** Comparing fields decides equality of the stored values. */
  lemma MatchIsEquality(v: DictValue, entry: EntrySnapshot)
    ensures v.MatchesSnapshot(entry) <==> v == FromSnapshot(entry)
  {
  }

  /** The summary and the dictionary of one encoded window. */
  datatype Window = Window(sections: seq<Section>, entries: seq<EntrySnapshot>)

  /** An interner lists each id once. */
  predicate Interned(entries: seq<EntrySnapshot>) {
    forall i, j :: 0 <= i < j < |entries| ==> entries[i].strId != entries[j].strId
  }

  /** Without a section there is no part, and so no window. */
  predicate IsWindow(w: Window) {
    w.sections != [] && Interned(w.entries)
  }

  // ---- Rows per type ----

  datatype DataAdmission = DataAdmission(rows: nat, children: nat)

  function NoRows(): DataAdmission {
    DataAdmission(0, 0)
  }

  function Plus(a: DataAdmission, b: DataAdmission): DataAdmission {
    DataAdmission(a.rows + b.rows, a.children + b.children)
  }

  function RowCount(sections: seq<Section>, t: nat): nat {
    if sections == [] then 0
    else
      var last := sections[|sections| - 1];
      RowCount(sections[..|sections| - 1], t) + if last.typeId == t then last.rows else 0
  }

  function ChildCount(sections: seq<Section>, t: nat): nat {
    if sections == [] then 0
    else
      var last := sections[|sections| - 1];
      ChildCount(sections[..|sections| - 1], t) + if last.typeId == t then last.children else 0
  }

  function RowsOf(sections: seq<Section>, t: nat): DataAdmission {
    DataAdmission(RowCount(sections, t), ChildCount(sections, t))
  }

  function TypeIn(s: Section): set<nat> {
    if s.IsData() then {s.typeId} else {}
  }

  function DataTypes(sections: seq<Section>): set<nat> {
    if sections == [] then {} else DataTypes(sections[..|sections| - 1]) + TypeIn(sections[|sections| - 1])
  }

  function DataOf(sections: seq<Section>): map<nat, DataAdmission> {
    map t | t in DataTypes(sections) :: RowsOf(sections, t)
  }

  function RowsIn(s: Section, t: nat): DataAdmission {
    if s.typeId == t then DataAdmission(s.rows, s.children) else NoRows()
  }

  lemma RowsGrow(sections: seq<Section>, s: Section, t: nat)
    ensures RowsOf(sections + [s], t) == Plus(RowsOf(sections, t), RowsIn(s, t))
  {
    assert (sections + [s])[..|sections|] == sections;
  }

  lemma {:induction false} RowsAppend(a: seq<Section>, b: seq<Section>, t: nat)
    ensures RowsOf(a + b, t) == Plus(RowsOf(a, t), RowsOf(b, t))
  {
    if b == [] {
      assert a + b == a;
    } else {
      var init, last := b[..|b| - 1], b[|b| - 1];
      RowsAppend(a, init, t);
      assert b == init + [last] && a + b == (a + init) + [last];
      RowsGrow(init, last, t);
      RowsGrow(a + init, last, t);
    }
  }

  lemma TypesGrow(sections: seq<Section>, s: Section)
    ensures DataTypes(sections + [s]) == DataTypes(sections) + TypeIn(s)
  {
    assert (sections + [s])[..|sections|] == sections;
  }

  lemma {:induction false} TypesAppend(a: seq<Section>, b: seq<Section>)
    ensures DataTypes(a + b) == DataTypes(a) + DataTypes(b)
  {
    if b == [] {
      assert a + b == a;
    } else {
      var init, last := b[..|b| - 1], b[|b| - 1];
      TypesAppend(a, init);
      assert b == init + [last] && a + b == (a + init) + [last];
      TypesGrow(init, last);
      TypesGrow(a + init, last);
    }
  }

  lemma {:induction false} TypesAreData(sections: seq<Section>, t: nat)
    requires t in DataTypes(sections)
    ensures t != DICT_STRINGS_TYPE_ID && t != DICT_BLOBS_TYPE_ID
  {
    if t in DataTypes(sections[..|sections| - 1]) {
      TypesAreData(sections[..|sections| - 1], t);
    }
  }

  lemma {:induction false} RowsOfAbsentType(sections: seq<Section>, t: nat)
    requires t !in DataTypes(sections) && t != DICT_STRINGS_TYPE_ID && t != DICT_BLOBS_TYPE_ID
    ensures RowsOf(sections, t) == NoRows()
  {
    if sections != [] {
      var init, last := sections[..|sections| - 1], sections[|sections| - 1];
      RowsOfAbsentType(init, t);
      assert t !in TypeIn(last);
    }
  }

  // ---- The dictionary ----

  type Dictionary = map<nat, DictValue>

  function DictionaryOf(entries: seq<EntrySnapshot>): Dictionary {
    if entries == [] then map[]
    else DictionaryOf(entries[..|entries| - 1])[entries[|entries| - 1].strId := FromSnapshot(entries[|entries| - 1])]
  }

  /** No id stands for two values. */
  predicate Consistent(entries: seq<EntrySnapshot>) {
    forall i, j :: 0 <= i < j < |entries| && entries[i].strId == entries[j].strId ==>
      FromSnapshot(entries[i]) == FromSnapshot(entries[j])
  }

  datatype Counter = StringRows | StringBytes | BlobRows | BlobBytes | TruncatedRows

  function Weight(v: DictValue, c: Counter): nat {
    match c
    case StringRows => if v.StringValue? then 1 else 0
    case StringBytes => if v.StringValue? then |v.bytes| else 0
    case BlobRows => if v.BlobValue? then 1 else 0
    case BlobBytes => if v.BlobValue? then |v.bytes| else 0
    case TruncatedRows => if v.IsTruncated() then 1 else 0
  }

  ghost function AnyKey(d: Dictionary): (k: nat)
    requires d != map[]
    ensures k in d
  {
    assert d.Keys == {} ==> d == map[];
    var k :| k in d.Keys;
    k
  }

  /** The sum of a weight over a whole dictionary. */
  ghost function Total(d: Dictionary, c: Counter): nat
    decreases |d|
  {
    if d == map[] then 0
    else var k := AnyKey(d); Weight(d[k], c) + Total(d - {k}, c)
  }

  lemma {:induction false} TotalRemove(d: Dictionary, c: Counter, k: nat)
    requires k in d
    ensures Total(d, c) == Weight(d[k], c) + Total(d - {k}, c)
    decreases |d|
  {
    var any := AnyKey(d);
    if any != k {
      TotalRemove(d - {any}, c, k);
      TotalRemove(d - {k}, c, any);
      assert d - {any} - {k} == d - {k} - {any};
    }
  }

  lemma TotalInsert(d: Dictionary, c: Counter, k: nat, v: DictValue)
    requires k !in d
    ensures Total(d[k := v], c) == Total(d, c) + Weight(v, c)
  {
    TotalRemove(d[k := v], c, k);
    assert d[k := v] - {k} == d;
  }

  predicate SubDictionary(a: Dictionary, b: Dictionary) {
    forall k :: k in a ==> k in b && a[k] == b[k]
  }

  lemma {:induction false} TotalMonotone(a: Dictionary, b: Dictionary, c: Counter)
    requires SubDictionary(a, b)
    ensures Total(a, c) <= Total(b, c)
    decreases |a|
  {
    if a != map[] {
      var k := AnyKey(a);
      TotalRemove(b, c, k);
      TotalMonotone(a - {k}, b - {k}, c);
    }
  }

  lemma {:induction false} TruncatedAreBlobs(d: Dictionary)
    ensures Total(d, TruncatedRows) <= Total(d, BlobRows)
    decreases |d|
  {
    if d != map[] {
      TruncatedAreBlobs(d - {AnyKey(d)});
    }
  }

  lemma {:induction false} DictionaryKeys(entries: seq<EntrySnapshot>, k: nat)
    ensures k in DictionaryOf(entries) <==> exists i :: 0 <= i < |entries| && entries[i].strId == k
    ensures k in DictionaryOf(entries) ==>
      exists i :: 0 <= i < |entries| && entries[i].strId == k && DictionaryOf(entries)[k] == FromSnapshot(entries[i])
  {
    if entries != [] {
      var n := |entries| - 1;
      DictionaryKeys(entries[..n], k);
      if k in DictionaryOf(entries[..n]) && entries[n].strId != k {
        var i :| 0 <= i < n && entries[..n][i].strId == k
          && DictionaryOf(entries[..n])[k] == FromSnapshot(entries[..n][i]);
        assert entries[i].strId == k && DictionaryOf(entries)[k] == FromSnapshot(entries[i]);
      }
    }
  }

  lemma DictionaryHolds(entries: seq<EntrySnapshot>, i: nat)
    requires Consistent(entries) && i < |entries|
    ensures entries[i].strId in DictionaryOf(entries)
    ensures DictionaryOf(entries)[entries[i].strId] == FromSnapshot(entries[i])
  {
    var k := entries[i].strId;
    DictionaryKeys(entries, k);
    var j :| 0 <= j < |entries| && entries[j].strId == k && DictionaryOf(entries)[k] == FromSnapshot(entries[j]);
    if i < j {
    } else if j < i {
    }
  }

  /** One more entry repeats a known value, contradicts it, or adds a new id. */
  lemma DictionaryGrows(entries: seq<EntrySnapshot>, e: EntrySnapshot)
    requires Consistent(entries)
    ensures DictionaryOf(entries + [e]) == DictionaryOf(entries)[e.strId := FromSnapshot(e)]
    ensures Consistent(entries + [e]) <==>
      (e.strId in DictionaryOf(entries) ==> DictionaryOf(entries)[e.strId] == FromSnapshot(e))
  {
    var all := entries + [e];
    assert all[..|entries|] == entries;
    DictionaryKeys(entries, e.strId);
    if e.strId in DictionaryOf(entries) {
      var i :| 0 <= i < |entries| && entries[i].strId == e.strId
        && DictionaryOf(entries)[e.strId] == FromSnapshot(entries[i]);
      if Consistent(all) {
        assert all[i] == entries[i] && all[|entries|] == e;
      } else {
        var j, k :| 0 <= j < k < |all| && all[j].strId == all[k].strId && FromSnapshot(all[j]) != FromSnapshot(all[k]);
        assert k == |entries|;
        DictionaryHolds(entries, j);
      }
    }
  }

  lemma ConsistentParts(a: seq<EntrySnapshot>, b: seq<EntrySnapshot>)
    requires Consistent(a + b)
    ensures Consistent(a) && Consistent(b)
    ensures SubDictionary(DictionaryOf(a), DictionaryOf(a + b))
    ensures SubDictionary(DictionaryOf(b), DictionaryOf(a + b))
  {
    var all := a + b;
    assert Consistent(a) by {
      assert forall i :: 0 <= i < |a| ==> all[i] == a[i];
    }
    assert Consistent(b) by {
      assert forall i :: 0 <= i < |b| ==> all[|a| + i] == b[i];
    }
    forall k | k in DictionaryOf(a)
      ensures k in DictionaryOf(all) && DictionaryOf(a)[k] == DictionaryOf(all)[k]
    {
      DictionaryKeys(a, k);
      var i :| 0 <= i < |a| && a[i].strId == k && DictionaryOf(a)[k] == FromSnapshot(a[i]);
      assert all[i] == a[i];
      DictionaryHolds(all, i);
    }
    forall k | k in DictionaryOf(b)
      ensures k in DictionaryOf(all) && DictionaryOf(b)[k] == DictionaryOf(all)[k]
    {
      DictionaryKeys(b, k);
      var i :| 0 <= i < |b| && b[i].strId == k && DictionaryOf(b)[k] == FromSnapshot(b[i]);
      assert all[|a| + i] == b[i];
      DictionaryHolds(all, |a| + i);
    }
  }

  // ---- The whole ledger ----

  datatype Ledger = Ledger(
    data: map<nat, DataAdmission>, dictionary: Dictionary, descriptors: nat,
    stringRows: nat, stringBytes: nat, blobRows: nat, blobBytes: nat, truncatedRows: nat)

  ghost function LedgerOf(sections: seq<Section>, entries: seq<EntrySnapshot>): Ledger {
    var d := DictionaryOf(entries);
    Ledger(DataOf(sections), d, |sections|,
           Total(d, StringRows), Total(d, StringBytes),
           Total(d, BlobRows), Total(d, BlobBytes), Total(d, TruncatedRows))
  }

  predicate DictionaryFits(limits: Limits, stringRows: nat, stringBytes: nat, blobRows: nat, blobBytes: nat,
                           truncatedRows: nat)
  {
    && limits.dictionary(Strings, stringRows, stringBytes, 0).Ok?
    && limits.dictionary(Blobs, blobRows, blobBytes, truncatedRows).Ok?
  }

  ghost predicate TotalsFit(limits: Limits, d: Dictionary) {
    DictionaryFits(limits, Total(d, StringRows), Total(d, StringBytes),
                   Total(d, BlobRows), Total(d, BlobBytes), Total(d, TruncatedRows))
  }

  predicate DataFits(limits: Limits, data: map<nat, DataAdmission>) {
    forall t :: t in data ==> limits.data(t, data[t].rows, data[t].children).Ok?
  }

  /** The coalesced contents satisfy every limit of a sealed segment. */
  predicate Fits(limits: Limits, l: Ledger) {
    && l.descriptors <= MAX_SECTION_ROWS
    && DataFits(limits, l.data)
    && DictionaryFits(limits, l.stringRows, l.stringBytes, l.blobRows, l.blobBytes, l.truncatedRows)
  }

  lemma DataPartsFit(limits: Limits, a: seq<Section>, b: seq<Section>)
    requires Sound(limits) && DataFits(limits, DataOf(a + b))
    ensures DataFits(limits, DataOf(a)) && DataFits(limits, DataOf(b))
  {
    TypesAppend(a, b);
    forall t | t in DataTypes(a + b)
      ensures limits.data(t, RowsOf(a, t).rows, RowsOf(a, t).children).Ok?
      ensures limits.data(t, RowsOf(b, t).rows, RowsOf(b, t).children).Ok?
    {
      RowsAppend(a, b, t);
      var whole := DataOf(a + b)[t];
      assert limits.data(t, whole.rows, whole.children).Ok?;
    }
  }

  lemma SmallerDictionaryFits(limits: Limits, a: Dictionary, b: Dictionary)
    requires Sound(limits) && SubDictionary(a, b) && TotalsFit(limits, b)
    ensures TotalsFit(limits, a)
  {
    TotalMonotone(a, b, StringRows);
    TotalMonotone(a, b, StringBytes);
    TotalMonotone(a, b, BlobRows);
    TotalMonotone(a, b, BlobBytes);
    TotalMonotone(a, b, TruncatedRows);
    TruncatedAreBlobs(a);
  }

  /** Whatever fits as a whole fits in each of its two parts. */
  lemma PartsFit(limits: Limits, s1: seq<Section>, e1: seq<EntrySnapshot>, s2: seq<Section>, e2: seq<EntrySnapshot>)
    requires Sound(limits) && Consistent(e1 + e2) && Fits(limits, LedgerOf(s1 + s2, e1 + e2))
    ensures Consistent(e1) && Fits(limits, LedgerOf(s1, e1))
    ensures Consistent(e2) && Fits(limits, LedgerOf(s2, e2))
  {
    ConsistentParts(e1, e2);
    DataPartsFit(limits, s1, s2);
    SmallerDictionaryFits(limits, DictionaryOf(e1), DictionaryOf(e1 + e2));
    SmallerDictionaryFits(limits, DictionaryOf(e2), DictionaryOf(e1 + e2));
  }

  lemma ConsistentWithoutMiddle(a: seq<EntrySnapshot>, b: seq<EntrySnapshot>, c: seq<EntrySnapshot>)
    requires Consistent(a + b + c)
    ensures Consistent(a + c) && SubDictionary(DictionaryOf(a + c), DictionaryOf(a + b + c))
  {
    var some, all := a + c, a + b + c;
    forall i | 0 <= i < |some|
      ensures some[i] == all[if i < |a| then i else i + |b|]
    {
    }
    assert Consistent(some);
    forall k | k in DictionaryOf(some)
      ensures k in DictionaryOf(all) && DictionaryOf(some)[k] == DictionaryOf(all)[k]
    {
      DictionaryKeys(some, k);
      var i :| 0 <= i < |some| && some[i].strId == k && DictionaryOf(some)[k] == FromSnapshot(some[i]);
      DictionaryHolds(all, if i < |a| then i else i + |b|);
    }
  }

  lemma DataWithoutMiddle(limits: Limits, a: seq<Section>, b: seq<Section>, c: seq<Section>)
    requires Sound(limits) && DataFits(limits, DataOf(a + b + c))
    ensures DataFits(limits, DataOf(a + c))
  {
    TypesAppend(a, c);
    TypesAppend(a + b, c);
    TypesAppend(a, b);
    forall t | t in DataTypes(a + c)
      ensures limits.data(t, RowsOf(a + c, t).rows, RowsOf(a + c, t).children).Ok?
    {
      RowsAppend(a, c, t);
      RowsAppend(a + b, c, t);
      RowsAppend(a, b, t);
      var whole := DataOf(a + b + c)[t];
      assert limits.data(t, whole.rows, whole.children).Ok?;
    }
  }

  /** Whatever fits as a whole fits without a stretch in its middle. */
  lemma MiddleLeftOut(limits: Limits, s1: seq<Section>, e1: seq<EntrySnapshot>,
                      s2: seq<Section>, e2: seq<EntrySnapshot>, s3: seq<Section>, e3: seq<EntrySnapshot>)
    requires Sound(limits) && Consistent(e1 + e2 + e3) && Fits(limits, LedgerOf(s1 + s2 + s3, e1 + e2 + e3))
    ensures Consistent(e1 + e3) && Fits(limits, LedgerOf(s1 + s3, e1 + e3))
  {
    ConsistentWithoutMiddle(e1, e2, e3);
    DataWithoutMiddle(limits, s1, s2, s3);
    SmallerDictionaryFits(limits, DictionaryOf(e1 + e3), DictionaryOf(e1 + e2 + e3));
  }

  lemma NothingFits(limits: Limits)
    requires Sound(limits)
    ensures LedgerOf([], []) == Ledger(map[], map[], 0, 0, 0, 0, 0, 0)
    ensures Consistent([]) && Fits(limits, LedgerOf([], []))
  {
    assert DataOf([]) == map[];
  }

  // ---- Admission of a window on top of what is already there ----

  /** The window does not contradict the dictionary, and the grown segment fits. */
  ghost predicate Admissible(limits: Limits, sections: seq<Section>, entries: seq<EntrySnapshot>, w: Window) {
    && Consistent(entries + w.entries)
    && Fits(limits, LedgerOf(sections + w.sections, entries + w.entries))
  }

  predicate Lists(entries: seq<EntrySnapshot>, id: nat) {
    exists i :: 0 <= i < |entries| && entries[i].strId == id
  }

  /** The entries of `more` whose ids are not yet listed. */
  function NewEntries(known: seq<EntrySnapshot>, more: seq<EntrySnapshot>): seq<EntrySnapshot> {
    if more == [] then []
    else
      var n := |more| - 1;
      NewEntries(known, more[..n]) + if Lists(known, more[n].strId) then [] else [more[n]]
  }

  /** What one interner would hold after the rows of both windows. */
  function Merge(first: Window, second: Window): Window {
    Window(first.sections + second.sections, first.entries + NewEntries(first.entries, second.entries))
  }

  lemma {:induction false} NewEntriesAreNew(known: seq<EntrySnapshot>, more: seq<EntrySnapshot>)
    requires Interned(more)
    ensures Interned(NewEntries(known, more))
    ensures forall i :: 0 <= i < |NewEntries(known, more)| ==>
      !Lists(known, NewEntries(known, more)[i].strId) && Lists(more, NewEntries(known, more)[i].strId)
  {
    if more != [] {
      var n := |more| - 1;
      var init := NewEntries(known, more[..n]);
      NewEntriesAreNew(known, more[..n]);
      forall i | 0 <= i < |init|
        ensures Lists(more, init[i].strId) && init[i].strId != more[n].strId
      {
        var j :| 0 <= j < n && more[..n][j].strId == init[i].strId;
        assert more[j].strId == init[i].strId;
      }
    }
  }

  /** The merged window is again a window: it lists each id once. */
  lemma MergeIsWindow(first: Window, second: Window)
    requires IsWindow(first) && IsWindow(second)
    ensures IsWindow(Merge(first, second))
  {
    NewEntriesAreNew(first.entries, second.entries);
    var all, n := Merge(first, second).entries, |first.entries|;
    forall i, j | 0 <= i < j < |all|
      ensures all[i].strId != all[j].strId
    {
      if i < n <= j {
        assert !Lists(first.entries, all[j].strId);
        assert first.entries[i].strId == all[i].strId;
      }
    }
  }

  /** One entry whose value is already in the dictionary changes nothing. */
  lemma RepeatedEntryChangesNothing(entries: seq<EntrySnapshot>, e: EntrySnapshot)
    requires Consistent(entries) && e.strId in DictionaryOf(entries)
    requires DictionaryOf(entries)[e.strId] == FromSnapshot(e)
    ensures DictionaryOf(entries + [e]) == DictionaryOf(entries) && Consistent(entries + [e])
  {
    DictionaryGrows(entries, e);
  }

  /** Both lists of entries say the same. */
  ghost predicate SameValues(a: seq<EntrySnapshot>, b: seq<EntrySnapshot>) {
    (Consistent(a) <==> Consistent(b)) && (Consistent(a) ==> DictionaryOf(a) == DictionaryOf(b))
  }

  lemma SameValuesGrow(a: seq<EntrySnapshot>, b: seq<EntrySnapshot>, e: EntrySnapshot)
    requires SameValues(a, b)
    ensures SameValues(a + [e], b + [e])
  {
    if Consistent(a) {
      DictionaryGrows(a, e);
      DictionaryGrows(b, e);
    } else if Consistent(a + [e]) {
      ConsistentParts(a, [e]);
    } else if Consistent(b + [e]) {
      ConsistentParts(b, [e]);
    }
  }

  lemma KnownEntryAddsNothing(base: seq<EntrySnapshot>, first: seq<EntrySnapshot>, seen: seq<EntrySnapshot>,
                              e: EntrySnapshot, i: nat)
    requires i < |first| && first[i].strId == e.strId && FromSnapshot(first[i]) == FromSnapshot(e)
    ensures SameValues(base + first + seen + [e], base + first + seen)
  {
    var all := base + first + seen;
    assert all[|base| + i] == first[i];
    if Consistent(all) {
      DictionaryHolds(all, |base| + i);
      RepeatedEntryChangesNothing(all, e);
    } else if Consistent(all + [e]) {
      ConsistentParts(all, [e]);
    }
  }

  lemma AgreeingEntry(first: seq<EntrySnapshot>, more: seq<EntrySnapshot>) returns (i: nat)
    requires more != [] && Lists(first, more[|more| - 1].strId) && Consistent(first + more)
    ensures i < |first| && first[i].strId == more[|more| - 1].strId
    ensures FromSnapshot(first[i]) == FromSnapshot(more[|more| - 1])
  {
    i :| 0 <= i < |first| && first[i].strId == more[|more| - 1].strId;
    var all := first + more;
    assert all[i] == first[i] && all[|all| - 1] == more[|more| - 1];
  }

  /** A value that both windows list counts once, wherever it stands: leaving it
      out of the second window keeps the dictionary and its consistency. */
  lemma {:induction false} RepeatedEntriesChangeNothing(base: seq<EntrySnapshot>, first: seq<EntrySnapshot>,
                                                        more: seq<EntrySnapshot>)
    requires Consistent(first + more)
    ensures SameValues(base + first + more, base + first + NewEntries(first, more))
  {
    if more == [] {
      assert base + first + more == base + first + NewEntries(first, more);
    } else {
      var n := |more| - 1;
      var seen, e, kept := more[..n], more[n], NewEntries(first, more[..n]);
      assert first + more == (first + seen) + [e];
      ConsistentParts(first + seen, [e]);
      RepeatedEntriesChangeNothing(base, first, seen);
      assert base + first + more == base + first + seen + [e];
      if Lists(first, e.strId) {
        var i := AgreeingEntry(first, more);
        KnownEntryAddsNothing(base, first, seen, e, i);
        assert NewEntries(first, more) == kept;
      } else {
        SameValuesGrow(base + first + seen, base + first + kept, e);
        assert base + first + kept + [e] == base + first + NewEntries(first, more);
      }
    }
  }

  /** All sections and entries of two windows, also those that both list. */
  function Both(first: Window, second: Window): Window {
    Window(first.sections + second.sections, first.entries + second.entries)
  }

  lemma BothInTurn(sections: seq<Section>, entries: seq<EntrySnapshot>, first: Window, second: Window)
    ensures sections + Both(first, second).sections == (sections + first.sections) + second.sections
    ensures entries + Both(first, second).entries == (entries + first.entries) + second.entries
  {
  }

  /** Two windows are admitted one after the other exactly when all their sections
      and entries are admitted at once. */
  lemma AdmittedInTurn(limits: Limits, sections: seq<Section>, entries: seq<EntrySnapshot>,
                       first: Window, second: Window)
    requires Sound(limits)
    ensures Admissible(limits, sections, entries, Both(first, second)) <==>
            (&& Admissible(limits, sections, entries, first)
             && Admissible(limits, sections + first.sections, entries + first.entries, second))
  {
    BothInTurn(sections, entries, first, second);
    if Admissible(limits, sections + first.sections, entries + first.entries, second) {
      PartsFit(limits, sections + first.sections, entries + first.entries, second.sections, second.entries);
    }
  }

  lemma AdmittedMeansAgree(limits: Limits, sections: seq<Section>, entries: seq<EntrySnapshot>,
                           first: Window, second: Window)
    requires Admissible(limits, sections, entries, Both(first, second))
    ensures Consistent(first.entries + second.entries)
  {
    ConsistentParts(entries, first.entries + second.entries);
  }

  /** For windows that agree, merging and keeping every entry come to the same. */
  lemma MergedAsBoth(limits: Limits, sections: seq<Section>, entries: seq<EntrySnapshot>,
                     first: Window, second: Window)
    requires Consistent(first.entries + second.entries)
    ensures Admissible(limits, sections, entries, Merge(first, second)) <==>
            Admissible(limits, sections, entries, Both(first, second))
    ensures Admissible(limits, sections, entries, Merge(first, second)) ==>
      LedgerOf(sections + Merge(first, second).sections, entries + Merge(first, second).entries)
      == LedgerOf(sections + Both(first, second).sections, entries + Both(first, second).entries)
  {
    RepeatedEntriesChangeNothing(entries, first.entries, second.entries);
    assert entries + Both(first, second).entries == entries + first.entries + second.entries;
    assert entries + Merge(first, second).entries
        == entries + first.entries + NewEntries(first.entries, second.entries);
  }

  /** Admission does not depend on how rows are split into windows: two windows
      are admitted one after the other exactly when they agree on the ids they
      share and their merged window is admitted, and both ways leave the same
      ledger. */
  lemma AdmissionIgnoresSplit(limits: Limits, sections: seq<Section>, entries: seq<EntrySnapshot>,
                              first: Window, second: Window)
    requires Sound(limits) && IsWindow(first) && IsWindow(second)
    ensures IsWindow(Merge(first, second))
    ensures (Admissible(limits, sections, entries, first)
             && Admissible(limits, sections + first.sections, entries + first.entries, second)) <==>
            (Consistent(first.entries + second.entries) && Admissible(limits, sections, entries, Merge(first, second)))
    ensures
      Consistent(first.entries + second.entries) && Admissible(limits, sections, entries, Merge(first, second)) ==>
      LedgerOf(sections + Merge(first, second).sections, entries + Merge(first, second).entries)
      == LedgerOf((sections + first.sections) + second.sections, (entries + first.entries) + second.entries)
  {
    MergeIsWindow(first, second);
    AdmittedInTurn(limits, sections, entries, first, second);
    BothInTurn(sections, entries, first, second);
    if Admissible(limits, sections, entries, Both(first, second)) {
      AdmittedMeansAgree(limits, sections, entries, first, second);
    }
    if Consistent(first.entries + second.entries) {
      MergedAsBoth(limits, sections, entries, first, second);
    }
  }

  /** A window that is too large by itself is never admitted on top of others. */
  lemma AloneFirst(limits: Limits, sections: seq<Section>, entries: seq<EntrySnapshot>, w: Window)
    requires Sound(limits) && Admissible(limits, sections, entries, w)
    ensures Admissible(limits, [], [], w)
  {
    PartsFit(limits, sections, entries, w.sections, w.entries);
    assert [] + w.sections == w.sections && [] + w.entries == w.entries;
  }
}
