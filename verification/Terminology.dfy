/** The retired-terminology scan: a file is read in chunks, and the search must
    not depend on where the chunks end. */
module Terminology {
  import opened Machine

  datatype Match = Match(path: string, line: nat, term: string)

  const FORBIDDEN_TERMS: seq<string> := [
    "source_id", "KRONIKA_SOURCE_ID", "source_identity", "source identity", "source ID",
    "node_self_id", "KRONIKA_NODE_SELF_ID"]

  // ---- What a whole-file search reports ----

  /** The first `n` characters of `term` stand in `text` at `i`. */
  predicate Agrees(text: string, i: nat, term: string, n: nat)
    requires n <= |term| && i + n <= |text|
  {
    n == 0 || (Agrees(text, i, term, n - 1) && text[i + n - 1] == term[n - 1])
  }

  predicate OccursAt(text: string, term: string, i: int) {
    0 <= i <= i + |term| <= |text| && Agrees(text, i, term, |term|)
  }

  lemma {:induction false} AgreesEverywhere(text: string, i: nat, term: string, n: nat)
    requires n <= |term| && i + n <= |text|
    ensures Agrees(text, i, term, n) <==> text[i..i + n] == term[..n]
  {
    if n > 0 {
      AgreesEverywhere(text, i, term, n - 1);
      assert text[i..i + n] == text[i..i + n - 1] + [text[i + n - 1]];
      assert term[..n] == term[..n - 1] + [term[n - 1]];
    }
  }

  /** An occurrence is the term, character for character. */
  lemma OccurrenceIsSubstring(text: string, term: string, i: nat)
    requires i + |term| <= |text|
    ensures OccursAt(text, term, i) <==> text[i..i + |term|] == term
  {
    AgreesEverywhere(text, i, term, |term|);
    assert term[..|term|] == term;
  }

  /** Newlines among the first `n` characters. */
  function Newlines(text: string, n: nat): nat
    requires n <= |text|
  {
    if n == 0 then 0 else Newlines(text, n - 1) + if text[n - 1] == '\n' then 1 else 0
  }

  /** It counts each line break once. */
  lemma {:induction false} NewlinesAreCounted(text: string, n: nat)
    requires n <= |text|
    ensures Newlines(text, n) == |set k: nat | k < n && text[k] == '\n'|
  {
    var breaks := set k: nat | k < n && text[k] == '\n';
    if n == 0 {
      assert breaks == {};
    } else {
      NewlinesAreCounted(text, n - 1);
      var before := set k: nat | k < n - 1 && text[k] == '\n';
      assert breaks == before + if text[n - 1] == '\n' then {n - 1} else {};
    }
  }

  function MatchAt(path: string, text: string, term: string, i: nat): Match
    requires i <= |text|
  {
    Match(path, 1 + Newlines(text, i), term)
  }

  /** One match for each occurrence of `term` that starts in `[lo, hi)`. */
  ghost function Found(path: string, text: string, term: string, lo: nat, hi: nat): multiset<Match>
    requires hi <= |text|
  {
    if hi <= lo then multiset{}
    else
      var last := if OccursAt(text, term, hi - 1) then multiset{MatchAt(path, text, term, hi - 1)} else multiset{};
      Found(path, text, term, lo, hi - 1) + last
  }

  ghost function FoundAll(path: string, text: string, terms: seq<string>, lo: nat, hi: nat): multiset<Match>
    requires hi <= |text|
  {
    if terms == [] then multiset{}
    else FoundAll(path, text, terms[..|terms| - 1], lo, hi) + Found(path, text, terms[|terms| - 1], lo, hi)
  }

  /** No proper suffix of the term is also a prefix of it. */
  predicate NoSelfOverlap(term: string) {
    forall k :: 0 < k < |term| ==> term[k..] != term[..|term| - k]
  }

  predicate Searchable(terms: seq<string>) {
    && |terms| > 0
    && forall term :: term in terms ==> term != "" && NoSelfOverlap(term)
  }

  function Flatten(chunks: seq<string>): string {
    if chunks == [] then "" else Flatten(chunks[..|chunks| - 1]) + chunks[|chunks| - 1]
  }

  // ---- Facts about occurrences ----

  lemma {:induction false} FoundSplit(path: string, text: string, term: string, lo: nat, mid: nat, hi: nat)
    requires lo <= mid <= hi <= |text|
    ensures Found(path, text, term, lo, hi) == Found(path, text, term, lo, mid) + Found(path, text, term, mid, hi)
  {
    if mid < hi {
      FoundSplit(path, text, term, lo, mid, hi - 1);
    }
  }

  lemma {:induction false} FoundAllSplit(path: string, text: string, terms: seq<string>, lo: nat, mid: nat, hi: nat)
    requires lo <= mid <= hi <= |text|
    ensures FoundAll(path, text, terms, lo, hi)
         == FoundAll(path, text, terms, lo, mid) + FoundAll(path, text, terms, mid, hi)
  {
    if terms != [] {
      FoundAllSplit(path, text, terms[..|terms| - 1], lo, mid, hi);
      FoundSplit(path, text, terms[|terms| - 1], lo, mid, hi);
    }
  }

  lemma {:induction false} FoundNone(path: string, text: string, term: string, lo: nat, hi: nat)
    requires lo <= hi <= |text|
    requires forall i :: lo <= i < hi ==> !OccursAt(text, term, i)
    ensures Found(path, text, term, lo, hi) == multiset{}
  {
    if lo < hi {
      FoundNone(path, text, term, lo, hi - 1);
    }
  }

  lemma TwoCopiesOverlap(text: string, term: string, i: nat, j: nat)
    requires i < j < i + |term| && j + |term| <= |text|
    requires text[i..i + |term|] == term && text[j..j + |term|] == term
    ensures term[j - i..] == term[..|term| - (j - i)]
  {
    var k := j - i;
    forall m | 0 <= m < |term| - k
      ensures term[k..][m] == term[..|term| - k][m]
    {
      assert text[i..i + |term|][k + m] == text[j..j + |term|][m];
    }
  }

  /** The skip after a match is safe: a term cannot start inside itself. */
  lemma OccurrencesAreApart(text: string, term: string, i: nat, j: nat)
    requires NoSelfOverlap(term) && OccursAt(text, term, i) && i < j < i + |term|
    ensures !OccursAt(text, term, j)
  {
    if OccursAt(text, term, j) {
      OccurrenceIsSubstring(text, term, i);
      OccurrenceIsSubstring(text, term, j);
      TwoCopiesOverlap(text, term, i, j);
    }
  }

  /** The term does not start again at `k`: one of two characters differs. */
  predicate StartDiffers(term: string, k: nat)
    requires 0 < k < |term|
  {
    term[k] != term[0] || (k + 1 < |term| && term[k + 1] != term[1])
  }

  lemma DistinctStart(term: string)
    requires forall k :: 0 < k < |term| ==> StartDiffers(term, k)
    ensures NoSelfOverlap(term)
  {
    forall k | 0 < k < |term|
      ensures term[k..] != term[..|term| - k]
    {
      assert StartDiffers(term, k);
      var suffix, prefix := term[k..], term[..|term| - k];
      assert suffix[0] == term[k] && prefix[0] == term[0];
      if k + 1 < |term| {
        assert suffix[1] == term[k + 1] && prefix[1] == term[1];
      }
    }
  }

  /** The list of terms that the repository retires meets the condition. */
  lemma ForbiddenTermsAreSearchable()
    ensures Searchable(FORBIDDEN_TERMS)
  {
    DistinctStart("source_id");
    DistinctStart("KRONIKA_SOURCE_ID");
    DistinctStart("source_identity");
    DistinctStart("source identity");
    DistinctStart("source ID");
    DistinctStart("node_self_id");
    DistinctStart("KRONIKA_NODE_SELF_ID");
  }

  // ---- The scan ----

  /** Python's `str.find`: the first occurrence at or after `start`, or -1. */
  function FindFrom(text: string, term: string, start: nat): (index: int)
    ensures index == -1 || (start <= index && OccursAt(text, term, index))
    ensures forall i :: start <= i < |text| + 1 && (index == -1 || i < index) ==> !OccursAt(text, term, i)
    decreases |text| + 1 - start
  {
    if start > |text| then -1
    else if OccursAt(text, term, start) then start
    else FindFrom(text, term, start + 1)
  }

  /** `combined` is the unscanned window of the file that starts at `base`. */
  ghost predicate IsWindow(text: string, base: nat, combined: string) {
    base + |combined| <= |text| && forall i :: 0 <= i < |combined| ==> combined[i] == text[base + i]
  }

  lemma {:induction false} WindowAgrees(text: string, base: nat, combined: string, term: string, i: nat, n: nat)
    requires IsWindow(text, base, combined) && n <= |term| && i + n <= |combined|
    ensures Agrees(combined, i, term, n) <==> Agrees(text, base + i, term, n)
  {
    if n > 0 {
      WindowAgrees(text, base, combined, term, i, n - 1);
      assert combined[i + n - 1] == text[base + (i + n - 1)];
    }
  }

  lemma WindowOccurrence(text: string, base: nat, combined: string, term: string, i: nat)
    requires IsWindow(text, base, combined)
    requires i + |term| <= |combined| || base + |combined| == |text|
    ensures OccursAt(combined, term, i) <==> OccursAt(text, term, base + i)
  {
    if i + |term| <= |combined| {
      WindowAgrees(text, base, combined, term, i, |term|);
    }
  }

  lemma {:induction false} WindowNewlines(text: string, base: nat, combined: string, n: nat)
    requires IsWindow(text, base, combined) && n <= |combined|
    ensures Newlines(text, base + n) == Newlines(text, base) + Newlines(combined, n)
  {
    if n > 0 {
      WindowNewlines(text, base, combined, n - 1);
      assert combined[n - 1] == text[base + (n - 1)];
    }
  }

  lemma WindowQuiet(text: string, base: nat, combined: string, term: string, lo: nat, hi: nat)
    requires IsWindow(text, base, combined) && lo <= hi <= |combined|
    requires hi == 0 || hi + |term| - 1 <= |combined| || base + |combined| == |text|
    requires forall i :: lo <= i < hi ==> !OccursAt(combined, term, i)
    ensures forall i :: base + lo <= i < base + hi ==> !OccursAt(text, term, i)
  {
    forall i | base + lo <= i < base + hi
      ensures !OccursAt(text, term, i)
    {
      WindowOccurrence(text, base, combined, term, i - base);
    }
  }

  /** Nothing is missed where nothing occurs. */
  lemma NoMoreOccurrences(path: string, text: string, term: string, lo: nat, done: nat, hi: nat)
    requires lo <= done <= hi <= |text|
    requires forall i :: done <= i < hi ==> !OccursAt(text, term, i)
    ensures Found(path, text, term, lo, hi) == Found(path, text, term, lo, done)
  {
    FoundNone(path, text, term, done, hi);
    FoundSplit(path, text, term, lo, done, hi);
  }

  /** A match adds one occurrence, and the skip after it loses none. */
  lemma OneOccurrence(path: string, text: string, term: string, lo: nat, done: nat, index: nat, next: nat)
    requires lo <= done <= index < next <= |text| && next <= index + |term| && NoSelfOverlap(term)
    requires OccursAt(text, term, index)
    requires forall i :: done <= i < index ==> !OccursAt(text, term, i)
    ensures Found(path, text, term, lo, next)
         == Found(path, text, term, lo, done) + multiset{MatchAt(path, text, term, index)}
  {
    NoMoreOccurrences(path, text, term, lo, done, index);
    forall i | index + 1 <= i < next
      ensures !OccursAt(text, term, i)
    {
      OccurrencesAreApart(text, term, index, i);
    }
    NoMoreOccurrences(path, text, term, lo, index + 1, next);
  }

  /** The matches so far are all of `hits`, or the first `limit` of them. */
  ghost predicate Covers(matches: seq<Match>, hits: multiset<Match>, limit: nat) {
    && |matches| <= limit
    && multiset(matches) <= hits
    && (|matches| < limit ==> multiset(matches) == hits)
  }

  lemma CoversMore(matches: seq<Match>, hits: multiset<Match>, seen: multiset<Match>, more: multiset<Match>,
                   all: multiset<Match>, limit: nat)
    requires Covers(matches, hits + seen, limit) && |matches| == limit && all == seen + more
    ensures Covers(matches, hits + all, limit)
  {
    assert hits + all == (hits + seen) + more;
  }

  lemma CoversNext(matches: seq<Match>, hits: multiset<Match>, seen: multiset<Match>, m: Match,
                   all: multiset<Match>, limit: nat)
    requires Covers(matches, hits + seen, limit) && |matches| < limit && all == seen + multiset{m}
    ensures Covers(matches + [m], hits + all, limit)
  {
    assert hits + all == (hits + seen) + multiset{m};
  }

  /** The next occurrence that starts before `searchable`, or -1 when no other
      occurrence of the window is left. */
  method NextHit(path: string, ghost text: string, ghost base: nat, combined: string, searchable: nat, term: string,
                 start: nat, ghost at: nat) returns (index: int)
    requires IsWindow(text, base, combined) && searchable <= |combined|
    requires searchable == 0 || searchable + |term| - 1 <= |combined| || base + |combined| == |text|
    requires at == base + start <= base + searchable || (at == base + searchable && searchable <= start)
    ensures index == -1 || start <= index < searchable
    ensures index >= 0 ==> index + |term| <= |combined| && OccursAt(combined, term, index)
    ensures index >= 0 ==> forall i :: at - base <= i < index ==> !OccursAt(combined, term, i)
    ensures index == -1 ==> Found(path, text, term, base, at) == Found(path, text, term, base, base + searchable)
  {
    index := FindFrom(combined, term, start);
    if index < 0 || index >= searchable {
      QuietRest(path, text, base, combined, searchable, term, start, at);
      index := -1;
    }
  }

  /** The search has decided every position below `at` and goes on at `start`. */
  ghost predicate Reached(base: nat, end: nat, start: nat, at: nat) {
    base <= at <= end && at <= base + start && (at < base + start ==> at == end)
  }

  /** One round of the search loop: it takes the next occurrence or finds no other. */
  method TakeNext(path: string, ghost text: string, ghost base: nat, ghost end: nat, combined: string, searchable: nat,
                  term: string, firstLine: nat, ghost limit: nat, matches: seq<Match>, ghost hits: multiset<Match>,
                  start: nat, ghost at: nat)
    returns (taken: bool, more: seq<Match>, next: nat, ghost reached: nat)
    requires term != "" && NoSelfOverlap(term) && end == base + searchable
    requires IsWindow(text, base, combined) && searchable <= |combined|
    requires searchable == 0 || searchable + |term| - 1 <= |combined| || base + |combined| == |text|
    requires firstLine == 1 + Newlines(text, base)
    requires Reached(base, end, start, at) && |matches| < limit
    requires Covers(matches, hits + Found(path, text, term, base, at), limit)
    ensures Reached(base, end, next, reached) && Covers(more, hits + Found(path, text, term, base, reached), limit)
    ensures taken ==> start < next <= |combined|
    ensures !taken ==> reached == end
  {
    var index := NextHit(path, text, base, combined, searchable, term, start, at);
    if index < 0 {
      return false, matches, Max(start, searchable), end;
    }
    var m := Match(path, firstLine + Newlines(combined, index), term);
    taken, next := true, index + |term|;
    reached := if next < searchable then base + next else end;
    ghost var seen := Found(path, text, term, base, at);
    seen := TakeCovered(
      path, text, base, combined, searchable, term, at, index, reached, m, matches, hits, seen, limit);
    more := matches + [m];
  }

  /** The search of one term in one window: every occurrence that starts before
      `searchable`, in order, until the limit is reached. */
  method ScanTerm(path: string, ghost text: string, ghost base: nat, ghost end: nat, combined: string,
                  searchable: nat, term: string, firstLine: nat, limit: nat, found: seq<Match>,
                  ghost hits: multiset<Match>) returns (matches: seq<Match>)
    requires term != "" && NoSelfOverlap(term) && end == base + searchable
    requires IsWindow(text, base, combined) && searchable <= |combined|
    requires searchable == 0 || searchable + |term| - 1 <= |combined| || base + |combined| == |text|
    requires firstLine == 1 + Newlines(text, base)
    requires Covers(found, hits, limit)
    ensures Covers(matches, hits + Found(path, text, term, base, end), limit)
  {
    matches := found;
    var start: nat, searching := 0, true;
    ghost var at := base;
    while searching && |matches| < limit
      invariant Reached(base, end, start, at) && Covers(matches, hits + Found(path, text, term, base, at), limit)
      invariant !searching ==> at == end
      invariant searching ==> start <= |combined|
      decreases searching, |combined| - start
    {
      searching, matches, start, at :=
        TakeNext(path, text, base, end, combined, searchable, term, firstLine, limit, matches, hits, start, at);
    }
    if searching {
      FoundSplit(path, text, term, base, at, end);
      CoversMore(matches, hits, Found(path, text, term, base, at), Found(path, text, term, at, end),
                 Found(path, text, term, base, end), limit);
    }
  }

  lemma QuietRest(path: string, text: string, base: nat, combined: string, searchable: nat, term: string,
                  start: nat, at: nat)
    requires IsWindow(text, base, combined) && searchable <= |combined|
    requires searchable == 0 || searchable + |term| - 1 <= |combined| || base + |combined| == |text|
    requires at == base + start <= base + searchable || at == base + searchable
    requires forall i :: start <= i < searchable ==> !OccursAt(combined, term, i)
    ensures Found(path, text, term, base, at) == Found(path, text, term, base, base + searchable)
  {
    if start < searchable {
      WindowQuiet(text, base, combined, term, start, searchable);
    }
    NoMoreOccurrences(path, text, term, base, at, base + searchable);
  }

  lemma TakeMatch(path: string, text: string, base: nat, combined: string, searchable: nat, term: string,
                  at: nat, index: nat, next: nat, m: Match)
    requires NoSelfOverlap(term) && IsWindow(text, base, combined)
    requires base <= at <= base + index < next <= base + searchable <= base + |combined|
    requires next <= base + index + |term| <= base + |combined|
    requires forall i :: at - base <= i < index ==> !OccursAt(combined, term, i)
    requires OccursAt(combined, term, index)
    requires m == Match(path, 1 + Newlines(text, base) + Newlines(combined, index), term)
    ensures Found(path, text, term, base, next) == Found(path, text, term, base, at) + multiset{m}
  {
    var hit := base + index;
    assert forall i :: at <= i < hit ==> !OccursAt(text, term, i) by {
      WindowQuiet(text, base, combined, term, at - base, index);
    }
    assert OccursAt(text, term, hit) by {
      WindowOccurrence(text, base, combined, term, index);
    }
    assert m == MatchAt(path, text, term, hit) by {
      WindowNewlines(text, base, combined, index);
    }
    OneOccurrence(path, text, term, base, at, hit, next);
  }

  /** One more match covers the occurrences up to `next`. */
  lemma TakeCovered(path: string, text: string, base: nat, combined: string, searchable: nat, term: string,
                    at: nat, index: nat, next: nat, m: Match,
                    matches: seq<Match>, hits: multiset<Match>, seen: multiset<Match>, limit: nat)
    returns (more: multiset<Match>)
    requires NoSelfOverlap(term) && IsWindow(text, base, combined)
    requires base <= at <= base + index < next <= base + searchable <= base + |combined|
    requires next <= base + index + |term| <= base + |combined|
    requires forall i :: at - base <= i < index ==> !OccursAt(combined, term, i)
    requires OccursAt(combined, term, index)
    requires m == Match(path, 1 + Newlines(text, base) + Newlines(combined, index), term)
    requires seen == Found(path, text, term, base, at)
    requires Covers(matches, hits + seen, limit) && |matches| < limit
    ensures more == Found(path, text, term, base, next) && Covers(matches + [m], hits + more, limit)
  {
    TakeMatch(path, text, base, combined, searchable, term, at, index, next, m);
    more := Found(path, text, term, base, next);
    CoversNext(matches, hits, seen, m, more, limit);
  }

  method ScanTerms(path: string, ghost text: string, ghost base: nat, ghost end: nat, combined: string,
                   searchable: nat, terms: seq<string>, firstLine: nat, limit: nat, found: seq<Match>,
                   ghost hits: multiset<Match>) returns (matches: seq<Match>)
    requires end == base + searchable
    requires forall term :: term in terms ==> term != "" && NoSelfOverlap(term)
    requires IsWindow(text, base, combined) && searchable <= |combined|
    requires searchable == 0 || base + |combined| == |text|
          || forall term :: term in terms ==> searchable + |term| - 1 <= |combined|
    requires firstLine == 1 + Newlines(text, base)
    requires Covers(found, hits, limit)
    ensures Covers(matches, hits + FoundAll(path, text, terms, base, end), limit)
  {
    matches := found;
    for n := 0 to |terms|
      invariant Covers(matches, hits + FoundAll(path, text, terms[..n], base, end), limit)
    {
      assert terms[..n + 1][..n] == terms[..n];
      assert terms[n] in terms;
      ghost var before := FoundAll(path, text, terms[..n], base, end);
      matches :=
        ScanTerm(path, text, base, end, combined, searchable, terms[n], firstLine, limit, matches, hits + before);
      ghost var here := Found(path, text, terms[n], base, end);
      assert hits + before + here == hits + (before + here);
    }
    assert terms[..|terms|] == terms;
  }

  method LongestTerm(terms: seq<string>) returns (length: nat)
    requires |terms| > 0
    ensures forall term :: term in terms ==> |term| <= length
    ensures exists term :: term in terms && |term| == length
  {
    length := |terms[0]|;
    for n := 0 to |terms|
      invariant forall k :: 0 <= k < n ==> |terms[k]| <= length
      invariant exists term :: term in terms && |term| == length
    {
      if length < |terms[n]| {
        length := |terms[n]|;
      }
    }
  }

  method ScanChunk(path: string, ghost text: string, ghost base: nat, combined: string, overlap: nat,
                   terms: seq<string>, firstLine: nat, limit: nat, found: seq<Match>)
    returns (matches: seq<Match>, tail: string, nextLine: nat, ghost next: nat)
    requires forall term :: term in terms ==> term != "" && NoSelfOverlap(term) && |term| - 1 <= overlap
    requires IsWindow(text, base, combined)
    requires firstLine == 1 + Newlines(text, base)
    requires Covers(found, FoundAll(path, text, terms, 0, base), limit)
    ensures base <= next && next + |tail| == base + |combined| && IsWindow(text, next, tail)
    ensures nextLine == 1 + Newlines(text, next)
    ensures Covers(matches, FoundAll(path, text, terms, 0, next), limit)
  {
    var searchable: nat := if |combined| < overlap then 0 else |combined| - overlap;
    next := base + searchable;
    FoundAllSplit(path, text, terms, 0, base, next);
    if |found| < limit {
      matches := ScanTerms(path, text, base, next, combined, searchable, terms, firstLine, limit, found,
                           FoundAll(path, text, terms, 0, base));
    } else {
      matches := found;
      SkipTerms(found, FoundAll(path, text, terms, 0, base), FoundAll(path, text, terms, base, next), limit);
    }
    nextLine := firstLine + Newlines(combined, searchable);
    tail := combined[searchable..];
    AdvanceWindow(text, base, combined, searchable, next);
  }

  lemma SkipTerms(matches: seq<Match>, hits: multiset<Match>, more: multiset<Match>, limit: nat)
    requires Covers(matches, hits, limit) && |matches| == limit
    ensures Covers(matches, hits + more, limit)
  {
  }

  lemma AdvanceWindow(text: string, base: nat, combined: string, n: nat, next: nat)
    requires IsWindow(text, base, combined) && n <= |combined| && next == base + n
    ensures IsWindow(text, next, combined[n..])
    ensures Newlines(text, next) == Newlines(text, base) + Newlines(combined, n)
  {
    WindowNewlines(text, base, combined, n);
    forall i | 0 <= i < |combined| - n
      ensures combined[n..][i] == text[next + i]
    {
      assert combined[n + i] == text[base + (n + i)];
    }
  }

  lemma {:induction false} FoundAllEmpty(path: string, text: string, terms: seq<string>, at: nat)
    requires at <= |text|
    ensures FoundAll(path, text, terms, at, at) == multiset{}
  {
    if terms != [] {
      FoundAllEmpty(path, text, terms[..|terms| - 1], at);
    }
  }

  lemma FlattenPrefix(chunks: seq<string>, k: nat)
    requires k <= |chunks|
    ensures Flatten(chunks[..k]) <= Flatten(chunks)
  {
    if k < |chunks| {
      assert chunks[..|chunks| - 1][..k] == chunks[..k];
      FlattenPrefix(chunks[..|chunks| - 1], k);
    } else {
      assert chunks[..k] == chunks;
    }
  }

  lemma WindowGrows(text: string, base: nat, tail: string, head: string, chunk: string)
    requires IsWindow(text, base, tail) && base + |tail| == |head| && head + chunk <= text
    ensures IsWindow(text, base, tail + chunk)
  {
    var combined := tail + chunk;
    forall i | 0 <= i < |combined|
      ensures combined[i] == text[base + i]
    {
      if i >= |tail| {
        assert (head + chunk)[base + i] == chunk[i - |tail|];
      }
    }
  }

  /** The chunk loop of the scan, up to the end of the file. */
  method ScanChunks(path: string, chunks: seq<string>, overlap: nat, terms: seq<string>, limit: nat)
    returns (matches: seq<Match>, tail: string, firstLine: nat, ghost base: nat)
    requires forall term :: term in terms ==> term != "" && NoSelfOverlap(term) && |term| - 1 <= overlap
    ensures base + |tail| == |Flatten(chunks)| && IsWindow(Flatten(chunks), base, tail)
    ensures firstLine == 1 + Newlines(Flatten(chunks), base)
    ensures Covers(matches, FoundAll(path, Flatten(chunks), terms, 0, base), limit)
  {
    matches, tail, firstLine, base := [], "", 1, 0;
    ghost var text := Flatten(chunks);
    FoundAllEmpty(path, text, terms, 0);
    for k := 0 to |chunks|
      invariant base + |tail| == |Flatten(chunks[..k])| <= |text|
      invariant IsWindow(text, base, tail)
      invariant firstLine == 1 + Newlines(text, base)
      invariant Covers(matches, FoundAll(path, text, terms, 0, base), limit)
    {
      assert chunks[..k + 1][..k] == chunks[..k];
      FlattenPrefix(chunks, k + 1);
      WindowGrows(text, base, tail, Flatten(chunks[..k]), chunks[k]);
      matches, tail, firstLine, base :=
        ScanChunk(path, text, base, tail + chunks[k], overlap, terms, firstLine, limit, matches);
    }
    assert chunks[..|chunks|] == chunks;
  }

  /** `matches_in_file`: the result speaks only of the text, so every way of
      cutting a file into chunks reports the same matches. */
  method MatchesInFile(path: string, readable: bool, chunks: seq<string>, terms: seq<string>, limit: nat)
    returns (matches: seq<Match>)
    requires Searchable(terms)
    ensures !readable ==> matches == []
    ensures readable ==> Covers(matches, FoundAll(path, Flatten(chunks), terms, 0, |Flatten(chunks)|), limit)
  {
    if !readable {
      return [];
    }
    var longest := LongestTerm(terms);
    var tail, firstLine;
    ghost var base;
    matches, tail, firstLine, base := ScanChunks(path, chunks, longest - 1, terms, limit);
    ghost var text := Flatten(chunks);
    ghost var hits := FoundAll(path, text, terms, 0, base);
    FoundAllSplit(path, text, terms, 0, base, |text|);
    if |matches| < limit {
      matches := ScanTerms(path, text, base, |text|, tail, |tail|, terms, firstLine, limit, matches, hits);
    } else {
      SkipTerms(matches, hits, FoundAll(path, text, terms, base, |text|), limit);
    }
  }
}
