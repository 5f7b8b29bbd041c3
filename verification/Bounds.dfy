/** Conservative size bounds of sealed sections: one check decides whether rows
    that were admitted window by window still fit one coalesced section. */
module Bounds {
  import opened Machine

  const MAX_SECTION_ROWS: nat := 65_536
  const MAX_SECTION_BYTES: nat := 8 * 1024 * 1024
  const MAX_LIST_VALUES: nat := MAX_SECTION_ROWS * 4
  const PAGE_BYTES: nat := 1024 * 1024
  const PAGE_FRAMING: nat := 4 * 1024
  const FILE_FRAMING: nat := 64 * 1024

  datatype CodecError =
    | TooManyRows | TooManyListValues | PlainPageTooLarge | SectionTooLarge
    | UnknownType | SchemaMismatch
  {
    predicate IsCapacity() {
      TooManyRows? || TooManyListValues? || PlainPageTooLarge? || SectionTooLarge?
    }
  }

  /** The width a column type takes on a PLAIN page. */
  datatype ColumnType = Byte1 | Bytes4 | Bytes8 | ListI32

  datatype Column = Column(ty: ColumnType, nullable: bool)

  /** The section contracts known to the writer, by type id. */
  type Registry = map<nat, seq<Column>>

  datatype ColumnSize = ColumnSize(valueBytes: nat, levelBytes: nat)

  // ---- One body of PLAIN columns ----

  /** The Zstandard bound; `None` stands for an overflow of `usize`. */
  function ZstdCompressBound(size: nat): Option<nat> {
    var margin := if size < 128 * 1024 then (128 * 1024 - size) / 2048 else 0;
    if size + size / 256 + margin > USIZE_MAX then None else Some(size + size / 256 + margin)
  }

  function AddColumn(body: nat, column: ColumnSize): Result<nat, CodecError> {
    if column.valueBytes >= PAGE_BYTES then Err(PlainPageTooLarge)
    else if column.valueBytes + column.levelBytes > USIZE_MAX then Err(SectionTooLarge)
    else
      var compressed := ZstdCompressBound(column.valueBytes + column.levelBytes);
      if compressed.None? || body + compressed.value + PAGE_FRAMING > USIZE_MAX then Err(SectionTooLarge)
      else Ok(body + compressed.value + PAGE_FRAMING)
  }

  function AddColumns(columns: seq<ColumnSize>): Result<nat, CodecError> {
    if columns == [] then Ok(FILE_FRAMING)
    else
      var body := AddColumns(columns[..|columns| - 1]);
      if body.Err? then body else AddColumn(body.value, columns[|columns| - 1])
  }

  /** `sealed_plain_body_bound`. */
  function PlainBodyBound(columns: seq<ColumnSize>): Result<nat, CodecError> {
    var body := AddColumns(columns);
    if body.Ok? && body.value > MAX_SECTION_BYTES then Err(SectionTooLarge) else body
  }

  // ---- Data sections ----

  function ColumnSizeOf(column: Column, rows: nat, children: nat): ColumnSize {
    match column.ty
    case ListI32 => ColumnSize(children * 4, (rows + children) * 4 + 16)
    case Byte1 => ColumnSize(rows, NullLevels(column, rows))
    case Bytes4 => ColumnSize(rows * 4, NullLevels(column, rows))
    case Bytes8 => ColumnSize(rows * 8, NullLevels(column, rows))
  }

  function NullLevels(column: Column, rows: nat): nat {
    if column.nullable then rows * 2 + 8 else 0
  }

  function ColumnSizes(columns: seq<Column>, rows: nat, children: nat): (sizes: seq<ColumnSize>)
    ensures |sizes| == |columns|
    ensures forall i :: 0 <= i < |columns| ==> sizes[i] == ColumnSizeOf(columns[i], rows, children)
  {
    seq(|columns|, i requires 0 <= i < |columns| => ColumnSizeOf(columns[i], rows, children))
  }

  predicate HasList(columns: seq<Column>) {
    exists i :: 0 <= i < |columns| && columns[i].ty == ListI32
  }

  /** `sealed_data_body_bound`: the caps checked first keep every product of rows
      or child values far below the width of `usize`. */
  function DataBodyBound(registry: Registry, typeId: nat, rows: nat, children: nat): Result<nat, CodecError> {
    if rows > MAX_SECTION_ROWS then Err(TooManyRows)
    else if typeId !in registry then Err(UnknownType)
    else if children > MAX_LIST_VALUES then Err(TooManyListValues)
    else if children != 0 && !HasList(registry[typeId]) then Err(SchemaMismatch)
    else PlainBodyBound(ColumnSizes(registry[typeId], rows, children))
  }

  // ---- Dictionary sections ----

  datatype Placement = Strings | Blobs

  function DictionaryColumns(placement: Placement, rows: nat, storedBytes: nat, truncated: nat): seq<ColumnSize> {
    var shared := [ColumnSize(rows * 8, 0), ColumnSize(rows * 4 + storedBytes, 0)];
    if placement == Strings then shared
    else shared + [ColumnSize(rows * 8, 0), ColumnSize(rows, 0), ColumnSize(truncated * 32, rows * 2 + 8)]
  }

  /** `sealed_dictionary_body_bound`. */
  function DictionaryBodyBound(placement: Placement, rows: nat, storedBytes: nat, truncated: nat)
    : Result<nat, CodecError>
  {
    if rows > MAX_SECTION_ROWS then Err(TooManyRows)
    else if truncated > rows || (placement == Strings && truncated != 0) then Err(SchemaMismatch)
    else if rows * 4 + storedBytes > USIZE_MAX then Err(PlainPageTooLarge)
    else PlainBodyBound(DictionaryColumns(placement, rows, storedBytes, truncated))
  }

  // ---- The bounds are monotone: what fits keeps fitting when it shrinks ----

  predicate Smaller(a: seq<ColumnSize>, b: seq<ColumnSize>) {
    && |a| == |b|
    && forall i :: 0 <= i < |a| ==> a[i].valueBytes <= b[i].valueBytes && a[i].levelBytes <= b[i].levelBytes
  }

  lemma ZstdMonotone(a: nat, b: nat)
    requires a <= b && ZstdCompressBound(b).Some?
    ensures ZstdCompressBound(a).Some? && ZstdCompressBound(a).value <= ZstdCompressBound(b).value
  {
    assert (128 * 1024 - a) / 2048 <= (128 * 1024 - b) / 2048 + (b - a);
  }

  lemma AddColumnMonotone(x: nat, y: nat, a: ColumnSize, b: ColumnSize)
    requires x <= y && a.valueBytes <= b.valueBytes && a.levelBytes <= b.levelBytes
    requires AddColumn(y, b).Ok?
    ensures AddColumn(x, a).Ok? && AddColumn(x, a).value <= AddColumn(y, b).value
  {
    ZstdMonotone(a.valueBytes + a.levelBytes, b.valueBytes + b.levelBytes);
  }

  lemma {:induction false} AddColumnsMonotone(a: seq<ColumnSize>, b: seq<ColumnSize>)
    requires Smaller(a, b) && AddColumns(b).Ok?
    ensures AddColumns(a).Ok? && AddColumns(a).value <= AddColumns(b).value
  {
    if a != [] {
      var n := |a| - 1;
      AddColumnsMonotone(a[..n], b[..n]);
      AddColumnMonotone(AddColumns(a[..n]).value, AddColumns(b[..n]).value, a[n], b[n]);
    }
  }

  lemma PlainMonotone(a: seq<ColumnSize>, b: seq<ColumnSize>)
    requires Smaller(a, b) && PlainBodyBound(b).Ok?
    ensures PlainBodyBound(a).Ok?
  {
    AddColumnsMonotone(a, b);
  }

  /** Rows and child values that fit together still fit when there are fewer. */
  lemma DataMonotone(registry: Registry, typeId: nat, rows: nat, children: nat, moreRows: nat, moreChildren: nat)
    requires rows <= moreRows && children <= moreChildren
    requires DataBodyBound(registry, typeId, moreRows, moreChildren).Ok?
    ensures DataBodyBound(registry, typeId, rows, children).Ok?
  {
    PlainMonotone(ColumnSizes(registry[typeId], rows, children), ColumnSizes(registry[typeId], moreRows, moreChildren));
  }

  lemma DictionaryMonotone(placement: Placement, rows: nat, bytes: nat, truncated: nat,
                           moreRows: nat, moreBytes: nat, moreTruncated: nat)
    requires rows <= moreRows && bytes <= moreBytes && truncated <= moreTruncated && truncated <= rows
    requires DictionaryBodyBound(placement, moreRows, moreBytes, moreTruncated).Ok?
    ensures DictionaryBodyBound(placement, rows, bytes, truncated).Ok?
  {
    PlainMonotone(DictionaryColumns(placement, rows, bytes, truncated),
                  DictionaryColumns(placement, moreRows, moreBytes, moreTruncated));
  }

  lemma PageLimit(columns: seq<ColumnSize>, i: nat)
    requires i < |columns| && AddColumns(columns).Ok?
    ensures columns[i].valueBytes < PAGE_BYTES
  {
    if i < |columns| - 1 {
      PageLimit(columns[..|columns| - 1], i);
    }
  }

  /** A dictionary that fits stores less than one page of bytes. */
  lemma DictionaryLimits(placement: Placement, rows: nat, bytes: nat, truncated: nat)
    requires DictionaryBodyBound(placement, rows, bytes, truncated).Ok?
    ensures rows <= MAX_SECTION_ROWS && bytes < PAGE_BYTES && truncated <= rows
  {
    var columns := DictionaryColumns(placement, rows, bytes, truncated);
    PageLimit(columns, 1);
  }

  lemma EmptyDictionaryFits(placement: Placement)
    ensures DictionaryBodyBound(placement, 0, 0, 0).Ok?
  {
    var shared := [ColumnSize(0, 0), ColumnSize(0, 0)];
    TwoColumns(shared);
    if placement == Blobs {
      var all := shared + [ColumnSize(0, 0), ColumnSize(0, 0), ColumnSize(0, 8)];
      assert DictionaryColumns(placement, 0, 0, 0) == all;
      assert all[..4][..3][..2] == shared;
      assert AddColumns(all[..3]) == AddColumn(AddColumns(shared).value, ColumnSize(0, 0)) by {
        assert all[..3][..2] == shared;
      }
      assert AddColumns(all[..4]) == AddColumn(AddColumns(all[..3]).value, ColumnSize(0, 0)) by {
        assert all[..4][..3] == all[..3];
      }
    }
  }

  lemma TwoColumns(columns: seq<ColumnSize>)
    requires |columns| == 2 && columns[0] == ColumnSize(0, 0) && columns[1] == ColumnSize(0, 0)
    ensures AddColumns(columns) == Ok(FILE_FRAMING + 2 * (64 + PAGE_FRAMING))
  {
    assert columns[..1][..0] == [];
    assert AddColumns(columns[..1]) == Ok(FILE_FRAMING + 64 + PAGE_FRAMING);
  }

  // ---- What the bounds come to ----

  function PageBound(c: ColumnSize): nat {
    ZstdCompressBound(c.valueBytes + c.levelBytes).UnwrapOr(0) + PAGE_FRAMING
  }

  predicate SmallColumn(c: ColumnSize) {
    c.valueBytes < PAGE_BYTES && c.levelBytes < 4 * PAGE_BYTES
  }

  lemma SmallColumnAdds(body: nat, c: ColumnSize)
    requires body <= 10_000 * PAGE_BYTES && SmallColumn(c)
    ensures AddColumn(body, c) == Ok(body + PageBound(c))
    ensures PageBound(c) <= 2 * (c.valueBytes + c.levelBytes) + 64 + PAGE_FRAMING
  {
  }

  lemma {:induction false} Times(n: nat, x: nat)
    requires x <= 11 * PAGE_BYTES
    ensures n * x <= 11 * PAGE_BYTES * n && (n + 1) * x == n * x + x
  {
    if n > 0 {
      Times(n - 1, x);
    }
  }

  lemma {:induction false} ColumnsAddUp(columns: seq<ColumnSize>, c: ColumnSize, page: nat)
    requires |columns| <= 900 && forall i :: 0 <= i < |columns| ==> columns[i] == c
    requires SmallColumn(c) && page == PageBound(c)
    ensures AddColumns(columns) == Ok(FILE_FRAMING + |columns| * page)
  {
    if columns != [] {
      var n := |columns| - 1;
      ColumnsAddUp(columns[..n], c, page);
      SmallColumnAdds(0, c);
      Times(n, page);
      SmallColumnAdds(FILE_FRAMING + n * page, c);
    }
  }

  /** Columns of one kind fit together exactly when a page takes the values of one of
      them and all pages fit the section. */
  lemma SameColumnsFit(registry: Registry, t: nat, column: Column, n: nat, rows: nat, children: nat)
    requires t in registry && 0 < n <= 900 && registry[t] == seq(n, i => column)
    requires rows <= 65_536 && children <= 262_144 && (children > 0 ==> column.ty == ListI32)
    ensures var c := ColumnSizeOf(column, rows, children);
      DataBodyBound(registry, t, rows, children).Ok? <==>
      (c.valueBytes < 1_048_576 && 65_536 + n * PageBound(c) <= 8_388_608)
  {
    var c, columns := ColumnSizeOf(column, rows, children), ColumnSizes(registry[t], rows, children);
    assert registry[t][0] == column;
    if c.valueBytes < PAGE_BYTES {
      ColumnsAddUp(columns, c, PageBound(c));
    } else if AddColumns(columns).Ok? {
      PageLimit(columns, 0);
    }
  }

  /** Sixteen required 8-byte columns take 64,261 rows. */
  lemma RequiredColumnsFit(registry: Registry, t: nat, rows: nat)
    requires t in registry && registry[t] == seq(16, i => Column(Bytes8, false))
    ensures DataBodyBound(registry, t, rows, 0).Ok? <==> rows <= 64_261
  {
    if rows <= 65_536 {
      SameColumnsFit(registry, t, Column(Bytes8, false), 16, rows, 0);
    }
  }

  /** Twenty-one nullable 4-byte columns take 65,117. */
  lemma NullableColumnsFit(registry: Registry, t: nat, rows: nat)
    requires t in registry && registry[t] == seq(21, i => Column(Bytes4, true))
    ensures DataBodyBound(registry, t, rows, 0).Ok? <==> rows <= 65_117
  {
    if rows <= 65_536 {
      SameColumnsFit(registry, t, Column(Bytes4, true), 21, rows, 0);
    }
  }

  /** A hundred and twenty required flags take 64,977. */
  lemma FlagsFit(registry: Registry, t: nat, rows: nat)
    requires t in registry && registry[t] == seq(120, i => Column(Byte1, false))
    ensures DataBodyBound(registry, t, rows, 0).Ok? <==> rows <= 64_977
  {
    if rows <= 65_536 {
      SameColumnsFit(registry, t, Column(Byte1, false), 120, rows, 0);
    }
  }

  /** A section with four list columns: a page of child values, the row cap, and
      what the levels leave. */
  lemma ListsFit(registry: Registry, t: nat, rows: nat, children: nat)
    requires t in registry && registry[t] == seq(4, i => Column(ListI32, false))
    ensures DataBodyBound(registry, t, rows, children).Ok? <==>
      (rows <= 65_536 && children <= 262_143 && 2 * children + rows <= 517_144)
  {
    if rows <= 65_536 && children <= 262_144 {
      SameColumnsFit(registry, t, Column(ListI32, false), 4, rows, children);
    }
  }

  /** Child values need a list column to be in. */
  lemma ChildrenNeedList(registry: Registry, t: nat, rows: nat, children: nat)
    requires DataBodyBound(registry, t, rows, children).Ok? && children > 0
    ensures exists i :: 0 <= i < |registry[t]| && registry[t][i].ty == ListI32
  {
  }

  lemma LongColumnFails(columns: seq<ColumnSize>, i: nat)
    requires i < |columns| && columns[i].valueBytes >= PAGE_BYTES
    ensures AddColumns(columns).Err?
  {
    if AddColumns(columns).Ok? {
      PageLimit(columns, i);
    }
  }

  /** Exactly which dictionaries fit: their entries share one page with the lengths,
      and in the blob section the digests of truncated values have a page too. */
  lemma DictionaryFitsExactly(placement: Placement, rows: nat, bytes: nat, truncated: nat)
    ensures DictionaryBodyBound(placement, rows, bytes, truncated).Ok? <==>
      && rows <= 65_536 && 4 * rows + bytes < 1_048_576
      && (if placement == Strings then truncated == 0 else truncated <= rows && truncated < 32_768)
  {
    var columns := DictionaryColumns(placement, rows, bytes, truncated);
    if rows <= 65_536 && rows * 4 + bytes >= PAGE_BYTES {
      LongColumnFails(columns, 1);
    } else if rows <= 65_536 && placement == Blobs && truncated >= 32_768 {
      LongColumnFails(columns, 4);
    } else if rows <= 65_536 && (placement == Strings ==> truncated == 0) && truncated <= rows {
      assert RawBytes(columns, 0) == 0 && RawBytes(columns, 1) == rows * 8;
      assert RawBytes(columns, 2) == rows * 12 + bytes;
      if placement == Strings {
        ColumnsFit(columns, 2, 2_200_000);
      } else {
        assert RawBytes(columns, 3) == rows * 20 + bytes && RawBytes(columns, 4) == rows * 21 + bytes;
        assert RawBytes(columns, 5) == rows * 23 + bytes + truncated * 32 + 8;
        ColumnsFit(columns, 5, 3_400_000);
      }
    }
  }

  lemma NextColumn(columns: seq<ColumnSize>, n: nat, body: nat)
    requires n < |columns| && AddColumns(columns[..n]) == Ok(body) && body <= 10_000 * PAGE_BYTES
    requires SmallColumn(columns[n])
    ensures AddColumns(columns[..n + 1]) == Ok(body + PageBound(columns[n]))
    ensures PageBound(columns[n]) <= 2 * (columns[n].valueBytes + columns[n].levelBytes) + 64 + PAGE_FRAMING
  {
    assert columns[..n + 1][..n] == columns[..n];
    SmallColumnAdds(body, columns[n]);
  }

  /** Bytes of values and levels. */
  function RawBytes(columns: seq<ColumnSize>, n: nat): nat
    requires n <= |columns|
  {
    if n == 0 then 0 else RawBytes(columns, n - 1) + columns[n - 1].valueBytes + columns[n - 1].levelBytes
  }

  lemma {:induction false} RawBytesAreFew(columns: seq<ColumnSize>, n: nat)
    requires n <= |columns| && forall i :: 0 <= i < n ==> SmallColumn(columns[i])
    ensures RawBytes(columns, n) <= 5 * PAGE_BYTES * n
  {
    if n > 0 {
      RawBytesAreFew(columns, n - 1);
    }
  }

  lemma {:induction false} ColumnsAreBounded(columns: seq<ColumnSize>, n: nat)
    requires n <= |columns| <= 5 && forall i :: 0 <= i < n ==> SmallColumn(columns[i])
    ensures AddColumns(columns[..n]).Ok?
    ensures AddColumns(columns[..n]).value <= FILE_FRAMING + 2 * RawBytes(columns, n) + 5_000 * n
  {
    if n == 0 {
      assert columns[..0] == [];
    } else {
      ColumnsAreBounded(columns, n - 1);
      RawBytesAreFew(columns, n - 1);
      var body := AddColumns(columns[..n - 1]).value;
      assert body <= 60 * PAGE_BYTES;
      NextColumn(columns, n - 1, body);
    }
  }

  lemma ColumnsFit(columns: seq<ColumnSize>, n: nat, raw: nat)
    requires |columns| == n <= 5 && forall i :: 0 <= i < n ==> SmallColumn(columns[i])
    requires RawBytes(columns, n) <= raw <= 4_000_000
    ensures PlainBodyBound(columns).Ok?
  {
    ColumnsAreBounded(columns, n);
    assert columns[..n] == columns;
  }

  // ---- The checks as one value ----

  /** The two size checks that admission consults. */
  datatype Limits = Limits(
    data: (nat, nat, nat) -> Result<nat, CodecError>,
    dictionary: (Placement, nat, nat, nat) -> Result<nat, CodecError>)

  /** Checks that never accept more of something they refuse less of, that bound
      every count, and that accept an empty dictionary. */
  ghost predicate Sound(limits: Limits) {
    && (forall t: nat, r: nat, c: nat, r': nat, c': nat {:trigger limits.data(t, r, c), limits.data(t, r', c')} ::
          r <= r' && c <= c' && limits.data(t, r', c').Ok? ==> limits.data(t, r, c).Ok?)
    && (forall p, r: nat, b: nat, t: nat, r': nat, b': nat, t': nat
          {:trigger limits.dictionary(p, r, b, t), limits.dictionary(p, r', b', t')} ::
          r <= r' && b <= b' && t <= t' && t <= r && limits.dictionary(p, r', b', t').Ok? ==>
            limits.dictionary(p, r, b, t).Ok?)
    && (forall t: nat, r: nat, c: nat {:trigger limits.data(t, r, c)} ::
          limits.data(t, r, c).Ok? ==> r <= MAX_SECTION_ROWS && c <= MAX_LIST_VALUES)
    && (forall p, r: nat, b: nat, t: nat {:trigger limits.dictionary(p, r, b, t)} ::
          limits.dictionary(p, r, b, t).Ok? ==> r <= MAX_SECTION_ROWS && b < PAGE_BYTES && t <= r)
    && limits.dictionary(Strings, 0, 0, 0).Ok? && limits.dictionary(Blobs, 0, 0, 0).Ok?
  }

  predicate SizeOnly(r: Result<nat, CodecError>) {
    r.Err? ==> r.error.IsCapacity()
  }

  ghost predicate DataErrorsAreCapacity(limits: Limits) {
    forall t: nat, r: nat, c: nat, r': nat, c': nat, r'': nat, c'': nat
      {:trigger limits.data(t, r, c), limits.data(t, r', c'), limits.data(t, r'', c'')} ::
      r'' == r + r' && c'' == c + c' && (limits.data(t, r, c).Ok? || c == 0) && limits.data(t, r', c').Ok?
      ==> SizeOnly(limits.data(t, r'', c''))
  }

  ghost predicate DictionaryErrorsAreCapacity(limits: Limits) {
    forall p, r: nat, b: nat, t: nat {:trigger limits.dictionary(p, r, b, t)} ::
      t <= r && (p == Strings ==> t == 0) ==> SizeOnly(limits.dictionary(p, r, b, t))
  }

  /** Two parts that are accepted can be refused together only for their size. */
  ghost predicate CapacityErrors(limits: Limits) {
    DataErrorsAreCapacity(limits) && DictionaryErrorsAreCapacity(limits)
  }

  function SealedLimits(registry: Registry): Limits {
    Limits(
      (typeId: nat, rows: nat, children: nat) => DataBodyBound(registry, typeId, rows, children),
      (placement: Placement, rows: nat, bytes: nat, truncated: nat) =>
        DictionaryBodyBound(placement, rows, bytes, truncated))
  }

  /** The checks of the registry and the dictionary writer are such checks. */
  lemma SealedLimitsAreSound(registry: Registry)
    ensures Sound(SealedLimits(registry))
  {
    var limits := SealedLimits(registry);
    forall t: nat, r: nat, c: nat, r': nat, c': nat | r <= r' && c <= c' && limits.data(t, r', c').Ok?
      ensures limits.data(t, r, c).Ok?
    {
      DataMonotone(registry, t, r, c, r', c');
    }
    forall p, r: nat, b: nat, t: nat, r': nat, b': nat, t': nat |
      r <= r' && b <= b' && t <= t' && t <= r && limits.dictionary(p, r', b', t').Ok?
      ensures limits.dictionary(p, r, b, t).Ok?
    {
      DictionaryMonotone(p, r, b, t, r', b', t');
    }
    forall p, r: nat, b: nat, t: nat | limits.dictionary(p, r, b, t).Ok?
      ensures r <= MAX_SECTION_ROWS && b < PAGE_BYTES && t <= r
    {
      DictionaryLimits(p, r, b, t);
    }
    EmptyDictionaryFits(Strings);
    EmptyDictionaryFits(Blobs);
  }

  lemma {:induction false} PlainErrors(columns: seq<ColumnSize>)
    ensures PlainBodyBound(columns).Err? ==> PlainBodyBound(columns).error.IsCapacity()
    ensures AddColumns(columns).Err? ==> AddColumns(columns).error.IsCapacity()
  {
    if columns != [] {
      PlainErrors(columns[..|columns| - 1]);
    }
  }

  lemma DataErrors(registry: Registry, t: nat, r: nat, c: nat, r': nat, c': nat)
    requires (DataBodyBound(registry, t, r, c).Ok? || c == 0) && DataBodyBound(registry, t, r', c').Ok?
    ensures SizeOnly(DataBodyBound(registry, t, r + r', c + c'))
  {
    PlainErrors(ColumnSizes(registry[t], r + r', c + c'));
  }

  lemma DictionaryErrors(p: Placement, r: nat, b: nat, t: nat)
    requires t <= r && (p == Strings ==> t == 0)
    ensures SizeOnly(DictionaryBodyBound(p, r, b, t))
  {
    PlainErrors(DictionaryColumns(p, r, b, t));
  }

  lemma SealedDataErrors(registry: Registry)
    ensures DataErrorsAreCapacity(SealedLimits(registry))
  {
    var limits := SealedLimits(registry);
    forall t: nat, r: nat, c: nat, r': nat, c': nat, r'': nat, c'': nat |
      r'' == r + r' && c'' == c + c' && (limits.data(t, r, c).Ok? || c == 0) && limits.data(t, r', c').Ok?
      ensures SizeOnly(limits.data(t, r'', c''))
    {
      DataErrors(registry, t, r, c, r', c');
    }
  }

  lemma SealedDictionaryErrors(registry: Registry)
    ensures DictionaryErrorsAreCapacity(SealedLimits(registry))
  {
    var limits := SealedLimits(registry);
    forall p, r: nat, b: nat, t: nat | t <= r && (p == Strings ==> t == 0)
      ensures SizeOnly(limits.dictionary(p, r, b, t))
    {
      DictionaryErrors(p, r, b, t);
    }
  }

  lemma SealedLimitsReportCapacity(registry: Registry)
    ensures CapacityErrors(SealedLimits(registry))
  {
    SealedDataErrors(registry);
    SealedDictionaryErrors(registry);
  }
}
