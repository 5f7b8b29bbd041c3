/** The incremental ledger of the open segment: each window is assessed against
    running totals, and a committed delta moves the totals on. */
module Admission {
  import opened Machine
  import opened Bounds
  import opened Ledger

  datatype AdmissionError =
    | Capacity
    | DictionaryConflict(strId: nat)
    | DictionaryPlacementConflict(strId: nat)
    | ArithmeticOverflow
    | Codec(error: CodecError)
  {
    predicate IsCapacity() {
      Capacity? || (Codec? && error.IsCapacity())
    }
  }

  datatype AdmissionDelta = AdmissionDelta(
    dataByType: map<nat, DataAdmission>,
    dictionary: seq<(nat, DictValue)>,
    descriptors: nat,
    stringRows: nat, stringBytes: nat, blobRows: nat, blobBytes: nat, truncatedRows: nat)

  // ---- Which check fails first ----

  /** The check of one section type against the rows already admitted. */
  function DataError(limits: Limits, rows: DataAdmission, t: nat): Option<AdmissionError> {
    if rows.rows > USIZE_MAX || rows.children > USIZE_MAX then Some(ArithmeticOverflow)
    else
      var bound := limits.data(t, rows.rows, rows.children);
      if bound.Err? then Some(Codec(bound.error)) else None
  }

  /** A sum beyond the width of the counters is reported as such, before the limits
      are asked, and any other error is one of the limits. */
  lemma OverflowComesFirst(limits: Limits, rows: DataAdmission, t: nat)
    ensures DataError(limits, rows, t) == Some(ArithmeticOverflow) <==>
      (rows.rows > USIZE_MAX || rows.children > USIZE_MAX)
    ensures rows.rows <= USIZE_MAX && rows.children <= USIZE_MAX ==>
      (DataError(limits, rows, t).None? <==> limits.data(t, rows.rows, rows.children).Ok?)
  {
  }

  /** The check of a value that is new to dictionary `d`. */
  ghost function NewValueError(limits: Limits, d: Dictionary, v: DictValue): Option<AdmissionError> {
    if v.StringValue? then
      ValueError(limits, Strings, Total(d, StringRows) + 1, Total(d, StringBytes) + |v.bytes|, 0)
    else
      ValueError(limits, Blobs, Total(d, BlobRows) + 1, Total(d, BlobBytes) + |v.bytes|,
                 Total(d, TruncatedRows) + Weight(v, TruncatedRows))
  }

  function ValueError(limits: Limits, placement: Placement, rows: nat, bytes: nat, truncated: nat)
    : Option<AdmissionError>
  {
    if bytes > USIZE_MAX then Some(ArithmeticOverflow)
    else
      var bound := limits.dictionary(placement, rows, bytes, truncated);
      if bound.Err? then Some(Codec(bound.error)) else None
  }

  /** The check of one dictionary entry on top of the entries before it. */
  ghost function EntryError(limits: Limits, d: Dictionary, e: EntrySnapshot): Option<AdmissionError> {
    if e.strId !in d then NewValueError(limits, d, FromSnapshot(e))
    else if d[e.strId].Placement() != e.placement then Some(DictionaryPlacementConflict(e.strId))
    else if d[e.strId] != FromSnapshot(e) then Some(DictionaryConflict(e.strId))
    else None
  }

  /** Rows of one type once the window is added. */
  function RowsWith(sections: seq<Section>, w: Window, t: nat): DataAdmission {
    Plus(RowsOf(sections, t), RowsOf(w.sections, t))
  }

  ghost predicate ChildrenOverflow(w: Window) {
    exists t :: t in DataTypes(w.sections) && RowsOf(w.sections, t).children > USIZE_MAX
  }

  ghost predicate DataPasses(limits: Limits, sections: seq<Section>, w: Window, types: set<nat>) {
    forall t :: t in types ==> DataError(limits, RowsWith(sections, w, t), t).None?
  }

  /** The least section type that fails its check reports `error`. */
  ghost predicate FirstDataError(limits: Limits, sections: seq<Section>, w: Window, error: AdmissionError) {
    exists t :: t in DataTypes(w.sections)
      && DataError(limits, RowsWith(sections, w, t), t) == Some(error)
      && forall u :: u in DataTypes(w.sections) && u < t ==> DataError(limits, RowsWith(sections, w, u), u).None?
  }

  /** The first `n` entries of the window pass, each on top of those before it. */
  ghost predicate EntriesPass(limits: Limits, entries: seq<EntrySnapshot>, w: Window, n: nat)
    requires n <= |w.entries|
  {
    n == 0
    || (&& EntriesPass(limits, entries, w, n - 1)
        && EntryError(limits, DictionaryOf(entries + w.entries[..n - 1]), w.entries[n - 1]).None?)
  }

  ghost predicate EntryFails(limits: Limits, entries: seq<EntrySnapshot>, w: Window, n: nat, error: AdmissionError) {
    && n < |w.entries|
    && EntriesPass(limits, entries, w, n)
    && EntryError(limits, DictionaryOf(entries + w.entries[..n]), w.entries[n]) == Some(error)
  }

  /** `error` is what the first failing check reports: descriptors, then the
      window's own sums, then the section types in ascending order, then the
      dictionary entries in order. */
  ghost predicate FirstError(limits: Limits, sections: seq<Section>, entries: seq<EntrySnapshot>, w: Window,
                             error: AdmissionError)
  {
    var descriptors := |sections| + |w.sections|;
    if descriptors > USIZE_MAX then error == ArithmeticOverflow
    else if descriptors > MAX_SECTION_ROWS then error == Capacity
    else if ChildrenOverflow(w) then error == ArithmeticOverflow
    else if !DataPasses(limits, sections, w, DataTypes(w.sections)) then FirstDataError(limits, sections, w, error)
    else exists n :: EntryFails(limits, entries, w, n, error)
  }

  // ---- What a delta stands for ----

  function Inserted(d: Dictionary, pairs: seq<(nat, DictValue)>): Dictionary {
    if pairs == [] then d
    else Inserted(d, pairs[..|pairs| - 1])[pairs[|pairs| - 1].0 := pairs[|pairs| - 1].1]
  }

  /** The counters of the delta are the growth of the dictionary's totals. */
  ghost predicate Grows(before: Dictionary, after: Dictionary, delta: AdmissionDelta) {
    && Total(after, StringRows) == Total(before, StringRows) + delta.stringRows
    && Total(after, StringBytes) == Total(before, StringBytes) + delta.stringBytes
    && Total(after, BlobRows) == Total(before, BlobRows) + delta.blobRows
    && Total(after, BlobBytes) == Total(before, BlobBytes) + delta.blobBytes
    && Total(after, TruncatedRows) == Total(before, TruncatedRows) + delta.truncatedRows
  }

  /** The delta's dictionary part leads from one dictionary to the other, and
      lists only ids that are new. */
  ghost predicate Leads(before: Dictionary, after: Dictionary, delta: AdmissionDelta) {
    && Inserted(before, delta.dictionary) == after
    && (forall i :: 0 <= i < |delta.dictionary| ==> delta.dictionary[i].0 !in before)
    && Grows(before, after, delta)
  }

  ghost predicate DeltaOf(entries: seq<EntrySnapshot>, w: Window, delta: AdmissionDelta) {
    && delta.dataByType == DataOf(w.sections)
    && delta.descriptors == |w.sections|
    && Leads(DictionaryOf(entries), DictionaryOf(entries + w.entries), delta)
  }

  // ---- Sections of the window ----

  lemma {:induction false} RowsStaySmall(sections: seq<Section>, t: nat)
    ensures RowsOf(sections, t).rows <= |sections| * U32_MAX
  {
    if sections != [] {
      RowsStaySmall(sections[..|sections| - 1], t);
    }
  }

  /** One more section adds its rows to its own type and to no other. */
  lemma DataStep(sections: seq<Section>, s: Section)
    ensures DataOf(sections + [s]) ==
      if !s.IsData() then DataOf(sections)
      else
        var known := if s.typeId in DataOf(sections) then DataOf(sections)[s.typeId] else NoRows();
        DataOf(sections)[s.typeId := Plus(known, DataAdmission(s.rows, s.children))]
  {
    TypesGrow(sections, s);
    forall t | t in DataTypes(sections + [s])
      ensures RowsOf(sections + [s], t) == Plus(RowsOf(sections, t), RowsIn(s, t))
      ensures !s.IsData() ==> RowsIn(s, t) == NoRows()
    {
      RowsGrow(sections, s, t);
      TypesAreData(sections + [s], t);
    }
    if s.IsData() && s.typeId !in DataTypes(sections) {
      RowsOfAbsentType(sections, s.typeId);
    }
  }

  predicate SumsFit(data: map<nat, DataAdmission>) {
    forall t :: t in data ==> data[t].children <= USIZE_MAX
  }

  lemma PrefixOverflow(w: Window, i: nat)
    requires i <= |w.sections| && !SumsFit(DataOf(w.sections[..i]))
    ensures ChildrenOverflow(w)
  {
    var t :| t in DataOf(w.sections[..i]) && DataOf(w.sections[..i])[t].children > USIZE_MAX;
    assert w.sections == w.sections[..i] + w.sections[i..];
    TypesAppend(w.sections[..i], w.sections[i..]);
    RowsAppend(w.sections[..i], w.sections[i..], t);
  }

  function Known(data: map<nat, DataAdmission>, t: nat): DataAdmission {
    if t in data then data[t] else NoRows()
  }

  method AddSection(incoming: map<nat, DataAdmission>, section: Section, ghost before: seq<Section>)
    returns (next: map<nat, DataAdmission>, overflow: bool)
    requires incoming == DataOf(before) && SumsFit(incoming) && |before| < MAX_SECTION_ROWS
    ensures next == DataOf(before + [section])
    ensures overflow <==> !SumsFit(next)
  {
    DataStep(before, section);
    next, overflow := incoming, false;
    if section.IsData() {
      var sum := Known(incoming, section.typeId);
      RowsStaySmall(before, section.typeId);
      assert sum.rows + section.rows <= USIZE_MAX;
      overflow := sum.children + section.children > USIZE_MAX;
      next := incoming[section.typeId := DataAdmission(sum.rows + section.rows, sum.children + section.children)];
      assert next[section.typeId].children == sum.children + section.children;
    }
  }

  /** The first loop of `assess_data`: the window's own rows per type. The sums
      of `u32` row counts cannot overflow, the child values can. */
  method SumSections(w: Window) returns (r: Result<map<nat, DataAdmission>, AdmissionError>)
    requires |w.sections| <= MAX_SECTION_ROWS
    ensures r.Ok? <==> !ChildrenOverflow(w)
    ensures r.Ok? ==> r.value == DataOf(w.sections)
    ensures r.Err? ==> r.error == ArithmeticOverflow
  {
    var incoming: map<nat, DataAdmission> := map[];
    for i := 0 to |w.sections|
      invariant incoming == DataOf(w.sections[..i]) && SumsFit(incoming)
    {
      assert w.sections[..i + 1] == w.sections[..i] + [w.sections[i]];
      var overflow;
      incoming, overflow := AddSection(incoming, w.sections[i], w.sections[..i]);
      if overflow {
        PrefixOverflow(w, i + 1);
        return Err(ArithmeticOverflow);
      }
    }
    assert w.sections[..|w.sections|] == w.sections;
    NoOverflow(w, incoming);
    r := Ok(incoming);
  }

  lemma NoOverflow(w: Window, incoming: map<nat, DataAdmission>)
    requires incoming == DataOf(w.sections) && SumsFit(incoming)
    ensures !ChildrenOverflow(w)
  {
    forall t | t in DataTypes(w.sections)
      ensures RowsOf(w.sections, t).children <= USIZE_MAX
    {
      assert t in incoming;
    }
  }

  lemma HasLeast(s: set<nat>, x: nat)
    requires x in s
    ensures exists m :: m in s && forall u :: u in s ==> m <= u
    decreases x
  {
    if y: nat :| y in s && y < x {
      HasLeast(s, y);
    }
  }

  predicate Ascending(keys: seq<nat>) {
    forall i, j :: 0 <= i < j < |keys| ==> keys[i] < keys[j]
  }

  /** The iteration order of a `BTreeMap`. */
  method AscendingKeys(s: set<nat>) returns (keys: seq<nat>)
    ensures Ascending(keys) && forall t :: t in s <==> t in keys
  {
    keys := [];
    var todo := s;
    while todo != {}
      invariant Ascending(keys)
      invariant forall t :: t in s <==> t in keys || t in todo
      invariant forall k, t :: k in keys && t in todo ==> k < t
      decreases |todo|
    {
      ghost var any :| any in todo;
      HasLeast(todo, any);
      var t :| t in todo && forall u :: u in todo ==> t <= u;
      forall i | 0 <= i < |keys|
        ensures keys[i] < t
      {
        assert keys[i] in keys;
      }
      assert forall u :: u in todo - {t} ==> t < u;
      keys, todo := keys + [t], todo - {t};
    }
  }

  lemma KnownRows(sections: seq<Section>, t: nat)
    requires t != DICT_STRINGS_TYPE_ID && t != DICT_BLOBS_TYPE_ID
    ensures Known(DataOf(sections), t) == RowsOf(sections, t)
  {
    if t !in DataTypes(sections) {
      RowsOfAbsentType(sections, t);
    }
  }

  lemma TypeRows(sections: seq<Section>, w: Window, t: nat)
    requires t in DataTypes(w.sections)
    ensures Plus(Known(DataOf(sections), t), DataOf(w.sections)[t]) == RowsWith(sections, w, t)
  {
    TypesAreData(w.sections, t);
    KnownRows(sections, t);
  }

  /** The second loop of `assess_data`: the types in ascending order against the
      rows already admitted. */
  method CheckTypes(limits: Limits, dataByType: map<nat, DataAdmission>, ghost sections: seq<Section>, w: Window,
                    incoming: map<nat, DataAdmission>) returns (r: Option<AdmissionError>)
    requires dataByType == DataOf(sections) && incoming == DataOf(w.sections)
    ensures r.None? <==> DataPasses(limits, sections, w, DataTypes(w.sections))
    ensures r.Some? ==> FirstDataError(limits, sections, w, r.value)
  {
    var keys := AscendingKeys(incoming.Keys);
    for i := 0 to |keys|
      invariant forall j :: 0 <= j < i ==> DataError(limits, RowsWith(sections, w, keys[j]), keys[j]).None?
    {
      var t := keys[i];
      assert t in incoming.Keys;
      TypeRows(sections, w, t);
      r := DataError(limits, Plus(Known(dataByType, t), incoming[t]), t);
      if r.Some? {
        LeastFails(limits, sections, w, keys, i, r.value);
        return;
      }
    }
    forall t | t in DataTypes(w.sections)
      ensures DataError(limits, RowsWith(sections, w, t), t).None?
    {
      assert t in keys;
    }
    r := None;
  }

  lemma LeastFails(limits: Limits, sections: seq<Section>, w: Window, keys: seq<nat>, i: nat, error: AdmissionError)
    requires Ascending(keys) && i < |keys| && forall t :: t in DataTypes(w.sections) <==> t in keys
    requires forall j :: 0 <= j < i ==> DataError(limits, RowsWith(sections, w, keys[j]), keys[j]).None?
    requires DataError(limits, RowsWith(sections, w, keys[i]), keys[i]) == Some(error)
    ensures FirstDataError(limits, sections, w, error)
    ensures !DataPasses(limits, sections, w, DataTypes(w.sections))
  {
    assert keys[i] in keys;
    forall u | u in DataTypes(w.sections) && u < keys[i]
      ensures DataError(limits, RowsWith(sections, w, u), u).None?
    {
      assert u in keys;
    }
  }

  lemma TooManyRowsFail(limits: Limits, rows: DataAdmission, t: nat)
    requires Sound(limits)
    ensures DataError(limits, rows, t).None? <==> limits.data(t, rows.rows, rows.children).Ok?
  {
  }

  /** The data checks decide whether the coalesced data sections fit. */
  lemma DataDecided(limits: Limits, sections: seq<Section>, w: Window)
    requires Sound(limits) && DataFits(limits, DataOf(sections))
    ensures DataFits(limits, DataOf(sections + w.sections)) <==> DataPasses(limits, sections, w, DataTypes(w.sections))
    ensures ChildrenOverflow(w) ==> !DataPasses(limits, sections, w, DataTypes(w.sections))
  {
    TypesAppend(sections, w.sections);
    forall t | t in DataTypes(sections + w.sections)
      ensures DataOf(sections + w.sections)[t] == RowsWith(sections, w, t)
      ensures t !in DataTypes(w.sections) ==> RowsWith(sections, w, t) == DataOf(sections)[t]
    {
      RowsAppend(sections, w.sections, t);
      TypesAreData(sections + w.sections, t);
      if t !in DataTypes(w.sections) {
        RowsOfAbsentType(w.sections, t);
      }
    }
    forall t | t in DataTypes(sections + w.sections)
      ensures t in DataOf(sections + w.sections)
      ensures DataError(limits, RowsWith(sections, w, t), t).None? <==>
        limits.data(t, RowsWith(sections, w, t).rows, RowsWith(sections, w, t).children).Ok?
    {
      TooManyRowsFail(limits, RowsWith(sections, w, t), t);
    }
  }

  // ---- Dictionary of the window ----

  lemma {:induction false} UntouchedId(entries: seq<EntrySnapshot>, more: seq<EntrySnapshot>, k: nat)
    requires forall i :: 0 <= i < |more| ==> more[i].strId != k
    ensures k in DictionaryOf(entries + more) <==> k in DictionaryOf(entries)
    ensures k in DictionaryOf(entries) ==> DictionaryOf(entries + more)[k] == DictionaryOf(entries)[k]
  {
    if more == [] {
      assert entries + more == entries;
    } else {
      var init, last := more[..|more| - 1], more[|more| - 1];
      UntouchedId(entries, init, k);
      assert entries + more == (entries + init) + [last];
      assert (entries + init + [last])[..|entries + init|] == entries + init;
    }
  }

  ghost predicate TotalsAre(d: Dictionary, l: Ledger) {
    && l.stringRows == Total(d, StringRows) && l.stringBytes == Total(d, StringBytes)
    && l.blobRows == Total(d, BlobRows) && l.blobBytes == Total(d, BlobBytes)
    && l.truncatedRows == Total(d, TruncatedRows)
  }

  lemma ValueDecided(limits: Limits, placement: Placement, rows: nat, bytes: nat, truncated: nat)
    requires Sound(limits)
    ensures ValueError(limits, placement, rows, bytes, truncated).None? <==>
      limits.dictionary(placement, rows, bytes, truncated).Ok?
  {
  }

  lemma TotalsInsert(d: Dictionary, k: nat, v: DictValue)
    requires k !in d
    ensures forall c :: Total(d[k := v], c) == Total(d, c) + Weight(v, c)
  {
    forall c {
      TotalInsert(d, c, k, v);
    }
  }

  /** A new value passes its check exactly when the dictionary with it still fits. */
  lemma NewValueDecided(limits: Limits, d: Dictionary, k: nat, v: DictValue)
    requires Sound(limits) && TotalsFit(limits, d) && k !in d
    ensures NewValueError(limits, d, v).None? <==> TotalsFit(limits, d[k := v])
  {
    TotalsInsert(d, k, v);
    if v.StringValue? {
      ValueDecided(limits, Strings, Total(d, StringRows) + 1, Total(d, StringBytes) + |v.bytes|, 0);
    } else {
      ValueDecided(limits, Blobs, Total(d, BlobRows) + 1, Total(d, BlobBytes) + |v.bytes|,
                   Total(d, TruncatedRows) + Weight(v, TruncatedRows));
    }
  }

  /** A failing entry means that the window is not admissible. */
  lemma EntryRefused(limits: Limits, sections: seq<Section>, entries: seq<EntrySnapshot>, w: Window, n: nat)
    requires Sound(limits) && n < |w.entries|
    requires Consistent(entries + w.entries[..n]) && TotalsFit(limits, DictionaryOf(entries + w.entries[..n]))
    requires EntryError(limits, DictionaryOf(entries + w.entries[..n]), w.entries[n]).Some?
    ensures !Admissible(limits, sections, entries, w)
  {
    var before, all := entries + w.entries[..n], entries + w.entries;
    var after := before + [w.entries[n]];
    DictionaryGrows(before, w.entries[n]);
    assert all == after + w.entries[n + 1..];
    if Consistent(all) {
      ConsistentParts(after, w.entries[n + 1..]);
      if TotalsFit(limits, DictionaryOf(all)) {
        SmallerDictionaryFits(limits, DictionaryOf(after), DictionaryOf(all));
        NewValueDecided(limits, DictionaryOf(before), w.entries[n].strId, FromSnapshot(w.entries[n]));
      }
    }
  }

  /** The ledger and the delta together count dictionary `d`. */
  ghost predicate Running(l: Ledger, delta: AdmissionDelta, d: Dictionary) {
    && l.stringRows + delta.stringRows == Total(d, StringRows)
    && l.stringBytes + delta.stringBytes == Total(d, StringBytes)
    && l.blobRows + delta.blobRows == Total(d, BlobRows)
    && l.blobBytes + delta.blobBytes == Total(d, BlobBytes)
    && l.truncatedRows + delta.truncatedRows == Total(d, TruncatedRows)
  }

  function GrownBy(delta: AdmissionDelta, v: DictValue): AdmissionDelta {
    delta.(stringRows := delta.stringRows + Weight(v, StringRows),
           stringBytes := delta.stringBytes + Weight(v, StringBytes),
           blobRows := delta.blobRows + Weight(v, BlobRows), blobBytes := delta.blobBytes + Weight(v, BlobBytes),
           truncatedRows := delta.truncatedRows + Weight(v, TruncatedRows))
  }

  /** One new dictionary value: the checked sums and the bound of its placement,
      in the order of the program. */
  method AddValue(limits: Limits, l: Ledger, delta: AdmissionDelta, value: DictValue, ghost d: Dictionary)
    returns (r: Result<AdmissionDelta, AdmissionError>)
    requires Running(l, delta, d)
    ensures r.Err? ==> NewValueError(limits, d, value) == Some(r.error)
    ensures r.Ok? ==> NewValueError(limits, d, value).None? && r.value == GrownBy(delta, value)
  {
    if value.Placement() == Strings {
      var rows, bytes := l.stringRows + delta.stringRows + 1, l.stringBytes + delta.stringBytes + |value.bytes|;
      if bytes > USIZE_MAX {
        return Err(ArithmeticOverflow);
      }
      var bound := limits.dictionary(Strings, rows, bytes, 0);
      if bound.Err? {
        return Err(Codec(bound.error));
      }
      r := Ok(delta.(stringRows := delta.stringRows + 1, stringBytes := delta.stringBytes + |value.bytes|));
    } else {
      var cut := if value.IsTruncated() then 1 else 0;
      var rows, bytes := l.blobRows + delta.blobRows + 1, l.blobBytes + delta.blobBytes + |value.bytes|;
      if bytes > USIZE_MAX {
        return Err(ArithmeticOverflow);
      }
      var bound := limits.dictionary(Blobs, rows, bytes, l.truncatedRows + delta.truncatedRows + cut);
      if bound.Err? {
        return Err(Codec(bound.error));
      }
      r := Ok(delta.(blobRows := delta.blobRows + 1, blobBytes := delta.blobBytes + |value.bytes|,
                     truncatedRows := delta.truncatedRows + cut));
    }
  }

  lemma LeadsFurther(before: Dictionary, d: Dictionary, delta: AdmissionDelta, k: nat, v: DictValue)
    requires Leads(before, d, delta) && k !in d && k !in before
    ensures Leads(before, d[k := v], GrownBy(delta, v).(dictionary := delta.dictionary + [(k, v)]))
  {
    var pairs := delta.dictionary + [(k, v)];
    assert pairs[..|pairs| - 1] == delta.dictionary;
    TotalInsert(d, StringRows, k, v);
    TotalInsert(d, StringBytes, k, v);
    TotalInsert(d, BlobRows, k, v);
    TotalInsert(d, BlobBytes, k, v);
    TotalInsert(d, TruncatedRows, k, v);
  }

  predicate SameSections(a: AdmissionDelta, b: AdmissionDelta) {
    a.dataByType == b.dataByType && a.descriptors == b.descriptors
  }

  /** One entry of the window on top of dictionary `d`, which holds the ledger's
      values and those of the window's earlier entries. */
  method AssessEntry(limits: Limits, l: Ledger, delta: AdmissionDelta, entry: EntrySnapshot, ghost d: Dictionary)
    returns (r: Result<AdmissionDelta, AdmissionError>)
    requires Sound(limits) && TotalsAre(l.dictionary, l) && TotalsFit(limits, d) && Leads(l.dictionary, d, delta)
    requires entry.strId in d <==> entry.strId in l.dictionary
    requires entry.strId in d ==> d[entry.strId] == l.dictionary[entry.strId]
    ensures r.Err? ==> EntryError(limits, d, entry) == Some(r.error)
    ensures r.Ok? ==> EntryError(limits, d, entry).None? && SameSections(r.value, delta)
    ensures r.Ok? ==> TotalsFit(limits, d[entry.strId := FromSnapshot(entry)])
    ensures r.Ok? ==> Leads(l.dictionary, d[entry.strId := FromSnapshot(entry)], r.value)
  {
    if entry.strId in l.dictionary {
      var existing := l.dictionary[entry.strId];
      MatchIsEquality(existing, entry);
      if existing.Placement() != entry.placement {
        return Err(DictionaryPlacementConflict(entry.strId));
      }
      if !existing.MatchesSnapshot(entry) {
        return Err(DictionaryConflict(entry.strId));
      }
      assert d[entry.strId := FromSnapshot(entry)] == d;
      return Ok(delta);
    }
    var value := FromSnapshot(entry);
    NewValueDecided(limits, d, entry.strId, value);
    r := AddValue(limits, l, delta, value, d);
    if r.Ok? {
      LeadsFurther(l.dictionary, d, delta, entry.strId, value);
      r := Ok(r.value.(dictionary := delta.dictionary + [(entry.strId, value)]));
    }
  }

  lemma EntryStep(entries: seq<EntrySnapshot>, w: Window, n: nat)
    requires IsWindow(w) && n < |w.entries| && Consistent(entries + w.entries[..n])
    ensures var (d, e) := (DictionaryOf(entries + w.entries[..n]), w.entries[n]);
      && DictionaryOf(entries + w.entries[..n + 1]) == d[e.strId := FromSnapshot(e)]
      && (e.strId in d <==> e.strId in DictionaryOf(entries))
      && (e.strId in d ==> d[e.strId] == DictionaryOf(entries)[e.strId])
  {
    var seen := entries + w.entries[..n];
    assert entries + w.entries[..n + 1] == seen + [w.entries[n]];
    DictionaryGrows(seen, w.entries[n]);
    UntouchedId(entries, w.entries[..n], w.entries[n].strId);
  }

  lemma {:induction false} PassedEntriesFit(limits: Limits, entries: seq<EntrySnapshot>, w: Window, n: nat)
    requires Sound(limits) && n <= |w.entries| && EntriesPass(limits, entries, w, n)
    requires Consistent(entries) && TotalsFit(limits, DictionaryOf(entries))
    ensures Consistent(entries + w.entries[..n]) && TotalsFit(limits, DictionaryOf(entries + w.entries[..n]))
  {
    if n == 0 {
      assert entries + w.entries[..0] == entries;
    } else {
      PassedEntriesFit(limits, entries, w, n - 1);
      var before, e := entries + w.entries[..n - 1], w.entries[n - 1];
      var d := DictionaryOf(before);
      assert entries + w.entries[..n] == before + [e];
      DictionaryGrows(before, e);
      if e.strId in d {
        assert d[e.strId := FromSnapshot(e)] == d;
      } else {
        NewValueDecided(limits, d, e.strId, FromSnapshot(e));
      }
    }
  }

  /** The next entry of the window, on top of those that passed. */
  /** What the entries so far add to the dictionary. */
  ghost predicate LeadsTo(l: Ledger, entries: seq<EntrySnapshot>, w: Window, n: nat, delta: AdmissionDelta)
    requires n <= |w.entries|
  {
    Leads(l.dictionary, DictionaryOf(entries + w.entries[..n]), delta)
  }

  lemma LeadsFromTo(l: Ledger, entries: seq<EntrySnapshot>, w: Window, delta: AdmissionDelta)
    ensures entries + w.entries[..0] == entries
    ensures LeadsTo(l, entries, w, |w.entries|, delta) ==> Leads(l.dictionary, DictionaryOf(entries + w.entries), delta)
  {
    assert w.entries[..|w.entries|] == w.entries;
  }

  method AssessNext(limits: Limits, l: Ledger, ghost entries: seq<EntrySnapshot>, w: Window, n: nat,
                    delta: AdmissionDelta)
    returns (r: Result<AdmissionDelta, AdmissionError>)
    requires Sound(limits) && IsWindow(w) && Consistent(entries) && TotalsFit(limits, DictionaryOf(entries))
    requires l.dictionary == DictionaryOf(entries) && TotalsAre(DictionaryOf(entries), l)
    requires n < |w.entries| && EntriesPass(limits, entries, w, n)
    requires LeadsTo(l, entries, w, n, delta)
    ensures r.Err? ==> EntryFails(limits, entries, w, n, r.error)
    ensures r.Ok? ==> EntriesPass(limits, entries, w, n + 1) && SameSections(r.value, delta)
    ensures r.Ok? ==> LeadsTo(l, entries, w, n + 1, r.value)
  {
    ghost var d := DictionaryOf(entries + w.entries[..n]);
    PassedEntriesFit(limits, entries, w, n);
    EntryStep(entries, w, n);
    r := AssessEntry(limits, l, delta, w.entries[n], d);
  }

  /** `assess_dictionary`: the entries of the window, in order. */
  method AssessDictionary(limits: Limits, l: Ledger, ghost entries: seq<EntrySnapshot>, w: Window,
                          data: map<nat, DataAdmission>)
    returns (r: Result<AdmissionDelta, AdmissionError>, ghost n: nat)
    requires Sound(limits) && IsWindow(w) && Consistent(entries) && TotalsFit(limits, DictionaryOf(entries))
    requires l.dictionary == DictionaryOf(entries) && TotalsAre(DictionaryOf(entries), l)
    ensures r.Ok? ==> EntriesPass(limits, entries, w, |w.entries|)
    ensures r.Ok? ==> Leads(l.dictionary, DictionaryOf(entries + w.entries), r.value)
    ensures r.Ok? ==> r.value.dataByType == data && r.value.descriptors == |w.sections|
    ensures r.Err? ==> EntryFails(limits, entries, w, n, r.error)
  {
    var delta := AdmissionDelta(data, [], |w.sections|, 0, 0, 0, 0, 0);
    n := 0;
    LeadsFromTo(l, entries, w, delta);
    for i := 0 to |w.entries|
      invariant n == i && EntriesPass(limits, entries, w, i) && LeadsTo(l, entries, w, i, delta)
      invariant delta.dataByType == data && delta.descriptors == |w.sections|
    {
      r := AssessNext(limits, l, entries, w, i, delta);
      if r.Err? {
        return;
      }
      delta, n := r.value, n + 1;
    }
    LeadsFromTo(l, entries, w, delta);
    r := Ok(delta);
  }

  // ---- Committing ----

  /** `commit` adds the window's rows type by type. */
  method MergeRows(dataByType: map<nat, DataAdmission>, incoming: map<nat, DataAdmission>)
    returns (merged: map<nat, DataAdmission>)
    requires SumsAreSmall(dataByType, incoming)
    ensures Merged(dataByType, incoming, {}, merged)
  {
    var todo := incoming.Keys;
    merged := dataByType;
    while todo != {}
      invariant todo <= incoming.Keys && Merged(dataByType, incoming, todo, merged)
      decreases |todo|
    {
      var t :| t in todo;
      merged := MergeOne(dataByType, incoming, todo, t, merged);
      todo := todo - {t};
    }
  }

  method MergeOne(ghost before: map<nat, DataAdmission>, incoming: map<nat, DataAdmission>, ghost todo: set<nat>,
                  t: nat, merged: map<nat, DataAdmission>) returns (next: map<nat, DataAdmission>)
    requires SumsAreSmall(before, incoming) && Merged(before, incoming, todo, merged)
    requires t in incoming && t in todo
    ensures Merged(before, incoming, todo - {t}, next)
  {
    var data, more := Known(merged, t), incoming[t];
    assert data == Known(before, t);
    next := merged[t := DataAdmission(SatAdd(data.rows, more.rows), SatAdd(data.children, more.children))];
    assert next[t] == Plus(Known(before, t), incoming[t]);
  }

  /** Every incoming type outside `todo` has been merged, the others are as before. */
  ghost predicate Merged(before: map<nat, DataAdmission>, incoming: map<nat, DataAdmission>, todo: set<nat>,
                         merged: map<nat, DataAdmission>)
  {
    && (forall t :: t in merged <==> t in before || (t in incoming && t !in todo))
    && (forall t :: t in merged ==>
          merged[t] == if t in incoming && t !in todo then Plus(Known(before, t), incoming[t]) else before[t])
  }

  ghost predicate SumsAreSmall(before: map<nat, DataAdmission>, incoming: map<nat, DataAdmission>) {
    forall t :: t in incoming ==>
      && Known(before, t).rows + incoming[t].rows <= USIZE_MAX
      && Known(before, t).children + incoming[t].children <= USIZE_MAX
  }

  /** When the grown segment fits, no sum of rows or child values saturates. */
  lemma RowsDoNotSaturate(limits: Limits, sections: seq<Section>, w: Window)
    requires Sound(limits) && DataFits(limits, DataOf(sections + w.sections))
    ensures SumsAreSmall(DataOf(sections), DataOf(w.sections))
  {
    TypesAppend(sections, w.sections);
    forall t | t in DataTypes(w.sections)
      ensures RowsWith(sections, w, t).rows <= USIZE_MAX && RowsWith(sections, w, t).children <= USIZE_MAX
      ensures Plus(Known(DataOf(sections), t), DataOf(w.sections)[t]) == RowsWith(sections, w, t)
    {
      TypeRows(sections, w, t);
      RowsAppend(sections, w.sections, t);
      var whole := DataOf(sections + w.sections)[t];
      assert limits.data(t, whole.rows, whole.children).Ok?;
    }
  }

  lemma MergedRows(sections: seq<Section>, w: Window, merged: map<nat, DataAdmission>)
    requires Merged(DataOf(sections), DataOf(w.sections), {}, merged)
    ensures merged == DataOf(sections + w.sections)
  {
    TypesAppend(sections, w.sections);
    var whole := DataOf(sections + w.sections);
    assert whole.Keys == DataTypes(sections) + DataTypes(w.sections);
    assert merged.Keys == whole.Keys;
    forall t | t in whole
      ensures merged[t] == whole[t]
    {
      RowsAppend(sections, w.sections, t);
      TypesAreData(sections + w.sections, t);
      KnownRows(sections, t);
      KnownRows(w.sections, t);
    }
  }

  /** `commit` adds the new dictionary values. */
  method InsertValues(dictionary: Dictionary, pairs: seq<(nat, DictValue)>) returns (grown: Dictionary)
    ensures grown == Inserted(dictionary, pairs)
  {
    grown := dictionary;
    for i := 0 to |pairs|
      invariant grown == Inserted(dictionary, pairs[..i])
    {
      assert pairs[..i + 1][..i] == pairs[..i];
      grown := grown[pairs[i].0 := pairs[i].1];
    }
    assert pairs[..|pairs|] == pairs;
  }

  /** The three checks of `assess`, in order, against the running totals `l`. */
  method AssessWindow(limits: Limits, l: Ledger, ghost sections: seq<Section>, ghost entries: seq<EntrySnapshot>,
                      w: Window)
    returns (r: Result<AdmissionDelta, AdmissionError>)
    requires Sound(limits) && l == LedgerOf(sections, entries) && Consistent(entries) && Fits(limits, l) && IsWindow(w)
    ensures r.Ok? <==> Admissible(limits, sections, entries, w)
    ensures r.Ok? ==> DeltaOf(entries, w, r.value)
    ensures r.Err? ==> FirstError(limits, sections, entries, w, r.error)
  {
    if l.descriptors + |w.sections| > USIZE_MAX {
      return Err(ArithmeticOverflow);
    }
    if l.descriptors + |w.sections| > MAX_SECTION_ROWS {
      return Err(Capacity);
    }
    DataDecided(limits, sections, w);
    var data := SumSections(w);
    if data.Err? {
      return Err(data.error);
    }
    var refused := CheckTypes(limits, l.data, sections, w, data.value);
    if refused.Some? {
      return Err(refused.value);
    }
    ghost var n;
    r, n := AssessDictionary(limits, l, entries, w, data.value);
    PassedEntriesFit(limits, entries, w, if r.Err? then n else |w.entries|);
    if r.Err? {
      EntryRefused(limits, sections, entries, w, n);
    } else {
      assert w.entries[..|w.entries|] == w.entries;
    }
  }

  /** The totals after a commit are the recomputation: no addition saturates. */
  lemma CommittedTotals(limits: Limits, sections: seq<Section>, entries: seq<EntrySnapshot>, w: Window,
                        delta: AdmissionDelta, l: Ledger, next: Ledger)
    requires Sound(limits) && DeltaOf(entries, w, delta) && Admissible(limits, sections, entries, w)
    requires l == LedgerOf(sections, entries)
    requires next.data == DataOf(sections + w.sections) && next.dictionary == Inserted(l.dictionary, delta.dictionary)
    requires next.descriptors == Min(l.descriptors + delta.descriptors, USIZE_MAX)
    requires next.stringRows == Min(l.stringRows + delta.stringRows, USIZE_MAX)
    requires next.stringBytes == Min(l.stringBytes + delta.stringBytes, USIZE_MAX)
    requires next.blobRows == Min(l.blobRows + delta.blobRows, USIZE_MAX)
    requires next.blobBytes == Min(l.blobBytes + delta.blobBytes, USIZE_MAX)
    requires next.truncatedRows == Min(l.truncatedRows + delta.truncatedRows, USIZE_MAX)
    ensures next == LedgerOf(sections + w.sections, entries + w.entries)
  {
    assert TotalsFit(limits, DictionaryOf(entries + w.entries));
  }

  /** The running totals equal the recomputation, and everything admitted fits. */
  ghost predicate Counted(limits: Limits, l: Ledger, sections: seq<Section>, entries: seq<EntrySnapshot>) {
    && Sound(limits)
    && l == LedgerOf(sections, entries)
    && Consistent(entries)
    && Fits(limits, l)
  }

  /** `commit` on the totals: every counter is raised by a saturating addition. */
  method AddDelta(limits: Limits, l: Ledger, ghost sections: seq<Section>, ghost entries: seq<EntrySnapshot>,
                  ghost w: Window, delta: AdmissionDelta) returns (next: Ledger)
    requires Sound(limits) && DeltaOf(entries, w, delta) && Admissible(limits, sections, entries, w)
    requires l == LedgerOf(sections, entries)
    ensures Counted(limits, next, sections + w.sections, entries + w.entries)
    ensures next.descriptors <= USIZE_MAX && next.stringRows <= USIZE_MAX && next.stringBytes <= USIZE_MAX
    ensures next.blobRows <= USIZE_MAX && next.blobBytes <= USIZE_MAX && next.truncatedRows <= USIZE_MAX
  {
    RowsDoNotSaturate(limits, sections, w);
    var data := MergeRows(l.data, delta.dataByType);
    MergedRows(sections, w, data);
    var dictionary := InsertValues(l.dictionary, delta.dictionary);
    next := Ledger(data, dictionary, Min(l.descriptors + delta.descriptors, USIZE_MAX),
                   Min(l.stringRows + delta.stringRows, USIZE_MAX), Min(l.stringBytes + delta.stringBytes, USIZE_MAX),
                   Min(l.blobRows + delta.blobRows, USIZE_MAX), Min(l.blobBytes + delta.blobBytes, USIZE_MAX),
                   Min(l.truncatedRows + delta.truncatedRows, USIZE_MAX));
    CommittedTotals(limits, sections, entries, w, delta, l, next);
  }

  class SegmentAdmission {
    const limits: Limits
    var dataByType: map<nat, DataAdmission>
    var dictionary: Dictionary
    var descriptors: usize
    var stringRows: usize
    var stringBytes: usize
    var blobRows: usize
    var blobBytes: usize
    var truncatedRows: usize

    /** Every section and dictionary entry admitted since the segment opened. */
    ghost var sections: seq<Section>
    ghost var entries: seq<EntrySnapshot>

    function Totals(): Ledger
      reads this
    {
      Ledger(dataByType, dictionary, descriptors, stringRows, stringBytes, blobRows, blobBytes, truncatedRows)
    }

    /** The totals, and what they were counted from. */
    ghost function Account(): (Ledger, seq<Section>, seq<EntrySnapshot>)
      reads this
    {
      (Totals(), sections, entries)
    }

    ghost predicate Valid()
      reads this
    {
      Counted(limits, Totals(), sections, entries)
    }

    constructor (limits: Limits)
      requires Sound(limits)
      ensures Valid() && this.limits == limits && sections == [] && entries == []
    {
      this.limits := limits;
      dataByType, dictionary, descriptors := map[], map[], 0;
      stringRows, stringBytes, blobRows, blobBytes, truncatedRows := 0, 0, 0, 0, 0;
      sections, entries := [], [];
      new;
      NothingFits(limits);
    }

    /** A window is accepted exactly when the grown segment satisfies every sealed
        limit and no id changes its value; otherwise the first failing check is
        reported. Nothing changes either way. */
    method Assess(w: Window) returns (r: Result<AdmissionDelta, AdmissionError>)
      requires Valid() && IsWindow(w)
      ensures r.Ok? <==> Admissible(limits, sections, entries, w)
      ensures r.Ok? ==> DeltaOf(entries, w, r.value)
      ensures r.Err? ==> FirstError(limits, sections, entries, w, r.error)
    {
      r := AssessWindow(limits, Totals(), sections, entries, w);
    }

    method MoveTo(next: Ledger, ghost sections: seq<Section>, ghost entries: seq<EntrySnapshot>)
      requires next.descriptors <= USIZE_MAX && next.stringRows <= USIZE_MAX && next.stringBytes <= USIZE_MAX
      requires next.blobRows <= USIZE_MAX && next.blobBytes <= USIZE_MAX && next.truncatedRows <= USIZE_MAX
      modifies this
      ensures Account() == (next, sections, entries)
    {
      dataByType, dictionary, descriptors := next.data, next.dictionary, next.descriptors;
      stringRows, stringBytes := next.stringRows, next.stringBytes;
      blobRows, blobBytes, truncatedRows := next.blobRows, next.blobBytes, next.truncatedRows;
      this.sections, this.entries := sections, entries;
    }

    /** Applying a delta to the ledger it was assessed against: no addition
        saturates, and the totals are again the recomputation. */
    method Commit(ghost w: Window, delta: AdmissionDelta)
      requires Valid() && DeltaOf(entries, w, delta) && Admissible(limits, sections, entries, w)
      modifies this
      ensures Valid()
      ensures sections == old(sections) + w.sections && entries == old(entries) + w.entries
    {
      var next := AddDelta(limits, Totals(), sections, entries, w, delta);
      MoveTo(next, sections + w.sections, entries + w.entries);
    }
  }

  lemma ValueIsSmall(limits: Limits, w: Window, n: nat)
    requires Sound(limits) && n < |w.entries| && Consistent(w.entries) && TotalsFit(limits, DictionaryOf(w.entries))
    ensures |w.entries[n].stored| < PAGE_BYTES
  {
    var d, e := DictionaryOf(w.entries), w.entries[n];
    DictionaryHolds(w.entries, n);
    TotalRemove(d, if e.placement == Strings then StringBytes else BlobBytes, e.strId);
  }

  /** The check of a short value reports only its size. */
  lemma ValueCapacity(limits: Limits, d: Dictionary, v: DictValue, error: AdmissionError)
    requires Sound(limits) && DictionaryErrorsAreCapacity(limits) && TotalsFit(limits, d)
    requires |v.bytes| < PAGE_BYTES && NewValueError(limits, d, v) == Some(error)
    ensures error.IsCapacity()
  {
    if v.StringValue? {
      StringCapacity(limits, Total(d, StringRows), Total(d, StringBytes), |v.bytes|, error);
    } else {
      TruncatedAreBlobs(d);
      BlobCapacity(limits, Total(d, BlobRows), Total(d, BlobBytes), Total(d, TruncatedRows), |v.bytes|,
                   Weight(v, TruncatedRows), error);
    }
  }

  lemma StringCapacity(limits: Limits, rows: nat, bytes: nat, more: nat, error: AdmissionError)
    requires Sound(limits) && DictionaryErrorsAreCapacity(limits)
    requires limits.dictionary(Strings, rows, bytes, 0).Ok? && more < PAGE_BYTES
    requires ValueError(limits, Strings, rows + 1, bytes + more, 0) == Some(error)
    ensures error.IsCapacity()
  {
    assert bytes < PAGE_BYTES;
    assert SizeOnly(limits.dictionary(Strings, rows + 1, bytes + more, 0));
  }

  lemma BlobCapacity(limits: Limits, rows: nat, bytes: nat, cut: nat, more: nat, moreCut: nat, error: AdmissionError)
    requires Sound(limits) && DictionaryErrorsAreCapacity(limits)
    requires limits.dictionary(Blobs, rows, bytes, cut).Ok? && more < PAGE_BYTES && moreCut <= 1 && cut <= rows
    requires ValueError(limits, Blobs, rows + 1, bytes + more, cut + moreCut) == Some(error)
    ensures error.IsCapacity()
  {
    assert bytes < PAGE_BYTES;
    assert SizeOnly(limits.dictionary(Blobs, rows + 1, bytes + more, cut + moreCut));
  }

  /** An entry that contradicts nothing can only fail as a new value. */
  lemma FailingEntryIsNew(entries: seq<EntrySnapshot>, w: Window, n: nat)
    requires Consistent(entries + w.entries) && n < |w.entries|
    ensures var (d, e) := (DictionaryOf(entries + w.entries[..n]), w.entries[n]);
      e.strId in d ==> d[e.strId] == FromSnapshot(e)
  {
    var before, e := entries + w.entries[..n], w.entries[n];
    assert entries + w.entries == (before + [e]) + w.entries[n + 1..];
    ConsistentParts(before + [e], w.entries[n + 1..]);
    ConsistentParts(before, [e]);
    DictionaryGrows(before, e);
  }

  lemma EntryCapacity(limits: Limits, entries: seq<EntrySnapshot>, w: Window, n: nat, error: AdmissionError)
    requires Sound(limits) && DictionaryErrorsAreCapacity(limits)
    requires Consistent(entries + w.entries) && n < |w.entries|
    requires TotalsFit(limits, DictionaryOf(w.entries))
    requires var d := DictionaryOf(entries + w.entries[..n]);
      TotalsFit(limits, d) && EntryError(limits, d, w.entries[n]) == Some(error)
    ensures error.IsCapacity()
  {
    var d, e := DictionaryOf(entries + w.entries[..n]), w.entries[n];
    FailingEntryIsNew(entries, w, n);
    ConsistentParts(entries, w.entries);
    ValueIsSmall(limits, w, n);
    ValueCapacity(limits, d, FromSnapshot(e), error);
  }

  lemma DataCapacity(limits: Limits, sections: seq<Section>, w: Window, t: nat, error: AdmissionError)
    requires Sound(limits) && DataErrorsAreCapacity(limits)
    requires DataFits(limits, DataOf(sections)) && DataFits(limits, DataOf(w.sections))
    requires t in DataTypes(w.sections) && DataError(limits, RowsWith(sections, w, t), t) == Some(error)
    ensures error.IsCapacity()
  {
    TypeRows(sections, w, t);
    var a, b, c := RowsOf(sections, t), DataOf(w.sections)[t], RowsWith(sections, w, t);
    assert limits.data(t, b.rows, b.children).Ok?;
    if t in DataTypes(sections) {
      assert a == DataOf(sections)[t];
      assert limits.data(t, a.rows, a.children).Ok?;
    } else {
      TypesAreData(w.sections, t);
      RowsOfAbsentType(sections, t);
    }
    assert c.rows == a.rows + b.rows && c.children == a.children + b.children;
    assert limits.data(t, c.rows, c.children).Err? ==> limits.data(t, c.rows, c.children).error.IsCapacity();
  }

  lemma AloneParts(limits: Limits, w: Window)
    requires Sound(limits) && Admissible(limits, [], [], w)
    ensures |w.sections| <= MAX_SECTION_ROWS && DataFits(limits, DataOf(w.sections)) && !ChildrenOverflow(w)
    ensures Consistent(w.entries) && TotalsFit(limits, DictionaryOf(w.entries))
  {
    assert [] + w.sections == w.sections && [] + w.entries == w.entries;
    forall t | t in DataTypes(w.sections)
      ensures RowsOf(w.sections, t).children <= USIZE_MAX
    {
      assert limits.data(t, DataOf(w.sections)[t].rows, DataOf(w.sections)[t].children).Ok?;
    }
  }

  lemma AnyDataCapacity(limits: Limits, sections: seq<Section>, w: Window, error: AdmissionError)
    requires Sound(limits) && DataErrorsAreCapacity(limits)
    requires DataFits(limits, DataOf(sections)) && DataFits(limits, DataOf(w.sections))
    requires FirstDataError(limits, sections, w, error)
    ensures error.IsCapacity()
  {
    var t :| t in DataTypes(w.sections) && DataError(limits, RowsWith(sections, w, t), t) == Some(error);
    DataCapacity(limits, sections, w, t, error);
  }

  /** A window that would fit an empty segment, and contradicts nothing, is
      refused only for want of room: the error asks for an early seal. */
  lemma RefusalIsCapacity(limits: Limits, sections: seq<Section>, entries: seq<EntrySnapshot>, w: Window,
                          error: AdmissionError)
    requires Sound(limits) && CapacityErrors(limits) && Consistent(entries + w.entries)
    requires Fits(limits, LedgerOf(sections, entries)) && Admissible(limits, [], [], w)
    requires FirstError(limits, sections, entries, w, error)
    ensures error.IsCapacity()
  {
    AloneParts(limits, w);
    ConsistentParts(entries, w.entries);
    if |sections| + |w.sections| <= MAX_SECTION_ROWS {
      if DataPasses(limits, sections, w, DataTypes(w.sections)) {
        var n :| EntryFails(limits, entries, w, n, error);
        PassedEntriesFit(limits, entries, w, n);
        EntryCapacity(limits, entries, w, n, error);
      } else {
        AnyDataCapacity(limits, sections, w, error);
      }
    }
  }
}
