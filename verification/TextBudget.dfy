/** Plan texts and log texts under byte limits: cutting UTF-8 only between
    characters, and spending one budget over the rows of a read. */
module TextBudget {
  import opened Machine

  // ---- UTF-8, section 3 of RFC 3629 ----

  function Utf8(c: char): (bytes: seq<byte>)
    ensures 1 <= |bytes| <= 4
    ensures !IsContinuation(bytes[0])
    ensures forall i :: 0 < i < |bytes| ==> IsContinuation(bytes[i])
  {
    var n := c as int;
    if n < 0x80 then [n]
    else if n < 0x800 then [0xC0 + n / 0x40, 0x80 + n % 0x40]
    else if n < 0x1_0000 then [0xE0 + n / 0x1000, 0x80 + n / 0x40 % 0x40, 0x80 + n % 0x40]
    else [0xF0 + n / 0x4_0000, 0x80 + n / 0x1000 % 0x40, 0x80 + n / 0x40 % 0x40, 0x80 + n % 0x40]
  }

  /** The lead byte tells how many bytes a character has, and the number is read back
      from them, six bits from each continuation. */
  function LengthOf(lead: byte): nat {
    if lead < 0x80 then 1 else if lead < 0xE0 then 2 else if lead < 0xF0 then 3 else 4
  }

  function SixBits(b: byte): int {
    b as int - 0x80
  }

  function CodePoint(bytes: seq<byte>): int
    requires |bytes| > 0 && |bytes| == LengthOf(bytes[0])
  {
    var lead := bytes[0] as int;
    if |bytes| == 1 then lead
    else if |bytes| == 2 then (lead - 0xC0) * 0x40 + SixBits(bytes[1])
    else if |bytes| == 3 then (lead - 0xE0) * 0x1000 + SixBits(bytes[1]) * 0x40 + SixBits(bytes[2])
    else (lead - 0xF0) * 0x4_0000 + SixBits(bytes[1]) * 0x1000 + SixBits(bytes[2]) * 0x40 + SixBits(bytes[3])
  }

  lemma Utf8RoundTrip(c: char)
    ensures |Utf8(c)| == LengthOf(Utf8(c)[0]) && CodePoint(Utf8(c)) == c as int
  {
    var n := c as int;
    assert n / 0x40 / 0x40 == n / 0x1000 && n / 0x1000 / 0x40 == n / 0x4_0000;
  }

  predicate IsContinuation(b: byte) {
    0x80 <= b < 0xC0
  }

  function Encode(text: string): seq<byte> {
    if text == "" then [] else Encode(text[..|text| - 1]) + Utf8(text[|text| - 1])
  }

  /** Rust's `str::is_char_boundary`. */
  predicate IsCharBoundary(bytes: seq<byte>, i: nat) {
    i == 0 || i == |bytes| || (i < |bytes| && !IsContinuation(bytes[i]))
  }

  /** The last character boundary at or before `i`. */
  function LastBoundary(bytes: seq<byte>, i: nat): (cut: nat)
    ensures cut <= i && IsCharBoundary(bytes, cut)
    ensures forall k :: cut < k <= i ==> !IsCharBoundary(bytes, k)
  {
    if i == 0 || IsCharBoundary(bytes, i) then i else LastBoundary(bytes, i - 1)
  }

  function CutAt(bytes: seq<byte>, maxBytes: nat): (cut: nat)
    ensures cut <= |bytes| && cut <= maxBytes
  {
    if |bytes| <= maxBytes then |bytes| else LastBoundary(bytes, maxBytes)
  }

  /** The longest prefix within the limit that ends between two characters. */
  function Truncated(bytes: seq<byte>, maxBytes: nat): (kept: seq<byte>)
    ensures |kept| <= maxBytes && kept <= bytes
  {
    bytes[..CutAt(bytes, maxBytes)]
  }

  // ---- The two truncations ----

  /** `truncate_to_boundary` of the plan source. */
  method TruncateToBoundary(text: seq<byte>, maxBytes: usize) returns (kept: seq<byte>)
    ensures kept == Truncated(text, maxBytes)
  {
    if |text| <= maxBytes {
      return text;
    }
    var cut: nat := maxBytes;
    while cut > 0 && !IsCharBoundary(text, cut)
      invariant cut <= maxBytes && LastBoundary(text, maxBytes) == LastBoundary(text, cut)
    {
      cut := cut - 1;
    }
    kept := text[..cut];
  }

  /** `truncate_log_text` of the log source: the same result on every input. */
  method TruncateLogText(value: seq<byte>, maxBytes: usize) returns (kept: seq<byte>)
    ensures kept == Truncated(value, maxBytes)
  {
    if |value| <= maxBytes {
      return value;
    }
    if maxBytes == 0 {
      return [];
    }
    var end: nat := maxBytes;
    while !IsCharBoundary(value, end)
      invariant end <= maxBytes && LastBoundary(value, maxBytes) == LastBoundary(value, end)
      decreases end
    {
      end := end - 1;
    }
    kept := value[..end];
  }

  // ---- What a cut means for the text ----

  lemma {:induction false} EncodePrefix(text: string, k: nat)
    requires k <= |text|
    ensures Encode(text[..k]) <= Encode(text)
  {
    if k < |text| {
      var init := text[..|text| - 1];
      EncodePrefix(init, k);
      assert init[..k] == text[..k];
    } else {
      assert text[..k] == text;
    }
  }

  lemma {:induction false} EncodeGrows(text: string, j: nat, k: nat)
    requires j <= k <= |text|
    ensures |Encode(text[..j])| + (k - j) <= |Encode(text[..k])|
  {
    if j < k {
      EncodeGrows(text, j, k - 1);
      assert text[..k][..k - 1] == text[..k - 1];
    }
  }

  /** Boundaries are exactly the ends of whole-character prefixes. */
  lemma {:induction false} BoundaryMeaning(text: string, i: nat) returns (k: nat)
    requires i <= |Encode(text)|
    ensures k <= |text| && |Encode(text[..k])| <= i
    ensures IsCharBoundary(Encode(text), i) <==> |Encode(text[..k])| == i
    ensures k < |text| ==> i < |Encode(text[..k + 1])|
  {
    if text == "" {
      k := 0;
    } else {
      var init := text[..|text| - 1];
      var head, last := Encode(init), Utf8(text[|text| - 1]);
      if i == |Encode(text)| {
        k := |text|;
        assert text[..k] == text;
      } else if i < |head| {
        k := BoundaryMeaning(init, i);
        assert init[..|init|] == init;
        assert k != |init|;
        assert init[..k] == text[..k] && init[..k + 1] == text[..k + 1];
        assert Encode(text)[i] == head[i];
      } else {
        k := |init|;
        assert text[..k] == init && text[..k + 1] == text;
        assert Encode(text)[i] == last[i - |head|];
      }
    }
  }

  lemma BoundaryOfPrefix(text: string, k: nat)
    requires k <= |text|
    ensures |Encode(text[..k])| <= |Encode(text)|
    ensures IsCharBoundary(Encode(text), |Encode(text[..k])|)
  {
    EncodePrefix(text, k);
    var i := |Encode(text[..k])|;
    var j := BoundaryMeaning(text, i);
    if j < k {
      EncodeGrows(text, j + 1, k);
    } else {
      EncodeGrows(text, k, j);
    }
  }

  /** A cut keeps whole characters, and as many of them as the limit allows. */
  lemma TruncationKeepsCharacters(text: string, maxBytes: nat) returns (k: nat)
    ensures k <= |text| && Truncated(Encode(text), maxBytes) == Encode(text[..k])
    ensures forall j :: k < j <= |text| ==> |Encode(text[..j])| > maxBytes
  {
    var bytes := Encode(text);
    var cut := CutAt(bytes, maxBytes);
    k := BoundaryMeaning(text, cut);
    EncodePrefix(text, k);
    forall j | k < j <= |text|
      ensures |Encode(text[..j])| > maxBytes
    {
      EncodeGrows(text, k, j);
      BoundaryOfPrefix(text, j);
    }
  }

  // ---- One budget over the rows of a read ----

  datatype PlanRow = PlanRow(planId: int, plan: Option<seq<byte>>)

  function TextBytes(rows: seq<PlanRow>): nat {
    if rows == [] then 0
    else
      var last := rows[|rows| - 1].plan;
      TextBytes(rows[..|rows| - 1]) + if last.Some? then |last.value| else 0
  }

  function TextCount(rows: seq<PlanRow>): nat {
    if rows == [] then 0 else TextCount(rows[..|rows| - 1]) + if rows[|rows| - 1].plan.Some? then 1 else 0
  }

  /** Bytes a text may use when earlier rows have already spent `spent`. */
  function Allowance(budget: nat, spent: nat, perTextCap: nat): nat {
    Min(Max(budget - spent, 0), perTextCap)
  }

  lemma RowsGrow(rows: seq<PlanRow>, row: PlanRow)
    ensures TextBytes(rows + [row]) == TextBytes(rows) + if row.plan.Some? then |row.plan.value| else 0
    ensures TextCount(rows + [row]) == TextCount(rows) + if row.plan.Some? then 1 else 0
  {
    assert (rows + [row])[..|rows|] == rows;
  }

  /** What row `i` of a budgeted read must hold, given the rows before it. */
  ghost predicate KeptWithinBudget(input: seq<PlanRow>, output: seq<PlanRow>, i: nat, budget: nat, perTextCap: nat)
    requires i < |output| <= |input|
  {
    var cap := Allowance(budget, TextBytes(output[..i]), perTextCap);
    && output[i].planId == input[i].planId
    && output[i].plan == if input[i].plan.None? || cap == 0 then None else Some(Truncated(input[i].plan.value, cap))
  }

  lemma RowKept(input: seq<PlanRow>, output: seq<PlanRow>, row: PlanRow, i: nat, budget: nat, perTextCap: nat)
    requires i < |output| < |input| && KeptWithinBudget(input, output, i, budget, perTextCap)
    ensures KeptWithinBudget(input, output + [row], i, budget, perTextCap)
  {
    assert (output + [row])[..i] == output[..i];
  }

  /** `usize::try_from` of the configured `i32`, with its fallback. */
  function PerTextCap(maxPlanText: int): usize {
    if 0 <= maxPlanText <= USIZE_MAX then maxPlanText else USIZE_MAX
  }

  /** The text phase of `collect_ossc_plans_with_budget`: kept bytes and the rest
      of the budget always add up, and no row is lost. */
  method BudgetOsscTexts(rows: seq<PlanRow>, planTextBudget: u64, maxPlanText: int)
    returns (output: seq<PlanRow>, budget: u64, kept: nat)
    ensures |output| == |rows|
    ensures TextBytes(output) + budget == planTextBudget && TextCount(output) == kept
    ensures var cap := if maxPlanText < 0 then USIZE_MAX else Min(maxPlanText, USIZE_MAX);
      forall i :: 0 <= i < |rows| ==> KeptWithinBudget(rows, output, i, planTextBudget, cap)
  {
    var perTextCap := PerTextCap(maxPlanText);
    output, budget, kept := [], planTextBudget, 0;
    for n := 0 to |rows|
      invariant |output| == n
      invariant TextBytes(output) + budget == planTextBudget && TextCount(output) == kept
      invariant forall i :: 0 <= i < n ==> KeptWithinBudget(rows, output, i, planTextBudget, perTextCap)
    {
      var row := rows[n];
      if row.plan.Some? {
        var cap := Min(budget, perTextCap);
        if cap == 0 {
          row := row.(plan := None);
        } else {
          var text := TruncateToBoundary(row.plan.value, cap);
          budget := SatSub(budget, |text|);
          kept := kept + 1;
          row := row.(plan := Some(text));
        }
      }
      RowsGrow(output, row);
      assert (output + [row])[..n] == output;
      forall i | 0 <= i < n
        ensures KeptWithinBudget(rows, output + [row], i, planTextBudget, perTextCap)
      {
        RowKept(rows, output, row, i, planTextBudget, perTextCap);
      }
      output := output + [row];
    }
  }

  /** What one fetch of a plan text can bring. */
  datatype Fetch = DeadlinePassed | FetchTimedOut | Fetched(text: seq<byte>) | Vanished | FetchFailed

  /** Row `i` was reached, and holds what its fetch brought, within its allowance. */
  ghost predicate FetchedWithinBudget(input: seq<PlanRow>, fetches: seq<Fetch>, output: seq<PlanRow>, i: nat,
                                      budget: nat, cap: nat)
    requires i < |output| <= |input| == |fetches|
  {
    var allowance := Allowance(budget, TextBytes(output[..i]), cap);
    && (fetches[i].Fetched? || fetches[i].Vanished?) && allowance > 0
    && output[i].planId == input[i].planId
    && output[i].plan == if fetches[i].Fetched? then Some(Truncated(fetches[i].text, allowance)) else input[i].plan
  }

  lemma FetchKept(input: seq<PlanRow>, fetches: seq<Fetch>, output: seq<PlanRow>, more: seq<PlanRow>, i: nat,
                  budget: nat, cap: nat)
    requires i < |output| && |output + more| <= |input| == |fetches|
    requires FetchedWithinBudget(input, fetches, output, i, budget, cap)
    ensures FetchedWithinBudget(input, fetches, output + more, i, budget, cap)
  {
    assert (output + more)[..i] == output[..i];
  }

  /** The text phase of `collect_plans_with_texts`: it may stop early, at an
      exhausted budget, the deadline or a failed fetch, and then leaves the
      remaining rows as they were enumerated, without a text. */
  method FetchPlanTexts(rows: seq<PlanRow>, fetches: seq<Fetch>, planTextBudget: u64, maxPlanText: int)
    returns (output: seq<PlanRow>, budget: u64, fetched: nat, stop: nat)
    requires |fetches| == |rows|
    requires forall r :: r in rows ==> r.plan.None?
    ensures |output| == |rows| && stop <= |rows|
    ensures TextBytes(output) + budget == planTextBudget && TextCount(output) == fetched
    ensures forall i :: 0 <= i < stop ==>
      FetchedWithinBudget(rows, fetches, output, i, planTextBudget, Max(maxPlanText, 0))
    ensures forall i :: stop <= i < |rows| ==> output[i] == rows[i]
    ensures stop < |rows| ==>
      Min(Max(maxPlanText, 0), budget) == 0 || !(fetches[stop].Fetched? || fetches[stop].Vanished?)
  {
    output, budget, fetched, stop := [], planTextBudget, 0, 0;
    ghost var limit := Max(maxPlanText, 0);
    while stop < |rows|
      invariant stop <= |rows| && |output| == stop
      invariant TextBytes(output) + budget == planTextBudget && TextCount(output) == fetched
      invariant forall i :: 0 <= i < stop ==> FetchedWithinBudget(rows, fetches, output, i, planTextBudget, limit)
    {
      var cap := Min(Max(maxPlanText, 0), budget);
      if cap == 0 || fetches[stop].DeadlinePassed? || fetches[stop].FetchTimedOut? || fetches[stop].FetchFailed? {
        break;
      }
      var row := rows[stop];
      if fetches[stop].Fetched? {
        var text := TruncateToBoundary(fetches[stop].text, cap);
        budget := SatSub(budget, |text|);
        row := row.(plan := Some(text));
        fetched := fetched + 1;
      }
      RowsGrow(output, row);
      assert (output + [row])[..stop] == output;
      forall i | 0 <= i < stop
        ensures FetchedWithinBudget(rows, fetches, output + [row], i, planTextBudget, limit)
      {
        FetchKept(rows, fetches, output, [row], i, planTextBudget, limit);
      }
      output := output + [row];
      stop := stop + 1;
    }
    RestWithoutTexts(output, rows[stop..]);
    forall i | 0 <= i < stop
      ensures FetchedWithinBudget(rows, fetches, output + rows[stop..], i, planTextBudget, limit)
    {
      FetchKept(rows, fetches, output, rows[stop..], i, planTextBudget, limit);
    }
    output := output + rows[stop..];
  }

  lemma {:induction false} RestWithoutTexts(head: seq<PlanRow>, rest: seq<PlanRow>)
    requires forall r :: r in rest ==> r.plan.None?
    ensures TextBytes(head + rest) == TextBytes(head) && TextCount(head + rest) == TextCount(head)
  {
    if rest == [] {
      assert head + rest == head;
    } else {
      var init, last := rest[..|rest| - 1], rest[|rest| - 1];
      RestWithoutTexts(head, init);
      assert head + rest == (head + init) + [last];
      RowsGrow(head + init, last);
    }
  }
}
