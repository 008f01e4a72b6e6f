/** Listing retained Operations page by page, newest first, while the registry goes on changing, and the
    cursor that a page ends with. */
module OperationListing {
  import opened Options
  import opened OperationRecord
  import OperationRegistry

  datatype Entry = Entry(id: OpId, record: Record)

  datatype Page = Page(entries: seq<Entry>, next: Option<nat>)

  // ---------- One page ----------

  predicate Below(entry: Entry, before: Option<nat>) {
    before.None? || entry.record.sequence < before.value
  }

  function Candidates(values: seq<Entry>, before: Option<nat>, matches: Entry -> bool): (found: seq<Entry>)
    ensures forall e :: e in found <==> e in values && Below(e, before) && matches(e)
  {
    if values == [] then []
    else
      (if Below(values[0], before) && matches(values[0]) then [values[0]] else [])
      + Candidates(values[1..], before, matches)
  }

  function Insert(entry: Entry, sorted: seq<Entry>): (r: seq<Entry>)
    ensures forall e :: e in r <==> e == entry || e in sorted
    ensures |r| == |sorted| + 1
  {
    if sorted == [] || sorted[0].record.sequence < entry.record.sequence then [entry] + sorted
    else [sorted[0]] + Insert(entry, sorted[1..])
  }

  function NewestFirst(entries: seq<Entry>): (r: seq<Entry>)
    ensures forall e :: e in r <==> e in entries
    ensures |r| == |entries|
  {
    if entries == [] then [] else Insert(entries[0], NewestFirst(entries[1..]))
  }

  // `values` are the retained records as the map happens to iterate them.
  function List(values: seq<Entry>, before: Option<nat>, matches: Entry -> bool, limit: nat): Page
    requires 1 <= limit <= 100
  {
    var records := NewestFirst(Candidates(values, before, matches));
    var page := if |records| > limit then records[..limit] else records;
    Page(page, if |records| > limit then Some(page[|page| - 1].record.sequence) else None)
  }

  ghost predicate DistinctSequences(entries: seq<Entry>) {
    forall i, j :: 0 <= i < j < |entries| ==> entries[i].record.sequence != entries[j].record.sequence
  }

  ghost predicate Descending(entries: seq<Entry>) {
    forall i, j :: 0 <= i < j < |entries| ==> entries[i].record.sequence > entries[j].record.sequence
  }

  lemma {:induction false} CandidatesDistinct(values: seq<Entry>, before: Option<nat>, matches: Entry -> bool)
    requires DistinctSequences(values)
    ensures DistinctSequences(Candidates(values, before, matches))
  {
    if values == [] {
    } else {
      CandidatesDistinct(values[1..], before, matches);
      var rest := Candidates(values[1..], before, matches);
      forall e | e in rest
        ensures e.record.sequence != values[0].record.sequence
      {
        var k :| 0 <= k < |values| - 1 && values[1..][k] == e;
        assert values[k + 1] == e;
      }
    }
  }

  lemma {:induction false} InsertDescending(entry: Entry, sorted: seq<Entry>)
    requires Descending(sorted) && forall e :: e in sorted ==> e.record.sequence != entry.record.sequence
    ensures Descending(Insert(entry, sorted))
  {
    if sorted != [] && sorted[0].record.sequence > entry.record.sequence {
      InsertDescending(entry, sorted[1..]);
      var rest := Insert(entry, sorted[1..]);
      forall e | e in rest
        ensures sorted[0].record.sequence > e.record.sequence
      {
        if e != entry {
          var k :| 0 <= k < |sorted| - 1 && sorted[1..][k] == e;
          assert sorted[k + 1] == e;
        }
      }
      assert forall k :: 0 <= k < |rest| ==> rest[k] in rest;
    } else {
      forall k | 0 <= k < |sorted|
        ensures sorted[k].record.sequence < entry.record.sequence
      {
        assert sorted[0] in sorted;
      }
    }
  }

  lemma {:induction false} NewestFirstDescends(entries: seq<Entry>)
    requires DistinctSequences(entries)
    ensures Descending(NewestFirst(entries))
  {
    if entries == [] {
    } else {
      NewestFirstDescends(entries[1..]);
      forall e | e in NewestFirst(entries[1..])
        ensures e.record.sequence != entries[0].record.sequence
      {
        var k :| 0 <= k < |entries| - 1 && entries[1..][k] == e;
        assert entries[k + 1] == e;
      }
      InsertDescending(entries[0], NewestFirst(entries[1..]));
    }
  }

  predicate Eligible(entry: Entry, values: seq<Entry>, before: Option<nat>, matches: Entry -> bool) {
    entry in values && Below(entry, before) && matches(entry)
  }

  /** What a page promises: the newest eligible Operations, newest first and at most `limit`; a further
      page exactly when one was left over, with a cursor between what the page holds and what it left. */
  ghost predicate IsPage(page: Page, values: seq<Entry>, before: Option<nat>, matches: Entry -> bool, limit: nat) {
    && Descending(page.entries) && |page.entries| <= limit
    && (forall e :: e in page.entries ==> Eligible(e, values, before, matches))
    && (page.next.None? ==> forall e :: Eligible(e, values, before, matches) ==> e in page.entries)
    && (page.next.Some? ==>
          && 0 < |page.entries| == limit && page.entries[limit - 1].record.sequence == page.next.value
          && (exists e :: Eligible(e, values, before, matches) && e !in page.entries)
          && (forall e :: e in page.entries ==> e.record.sequence >= page.next.value)
          && (forall e :: Eligible(e, values, before, matches) && e !in page.entries ==>
              e.record.sequence < page.next.value))
  }

  // The first `limit` of the sorted records.
  lemma CutDescends(records: seq<Entry>, limit: nat, page: seq<Entry>)
    requires Descending(records) && 0 < limit < |records| && page == records[..limit]
    ensures Descending(page) && records[limit] in records && records[limit] !in page
    ensures forall e :: e in page ==> e in records && e.record.sequence >= records[limit - 1].record.sequence
    ensures forall e :: e in records && e !in page ==> e.record.sequence < records[limit - 1].record.sequence
  {
    forall e | e in records && e !in page
      ensures e.record.sequence < records[limit - 1].record.sequence
    {
      var k :| 0 <= k < |records| && records[k] == e;
      var early := if k < limit then page[k] == e else false;
    }
    forall e | e in page
      ensures e.record.sequence >= records[limit - 1].record.sequence
    {
      var k :| 0 <= k < |page| && page[k] == e;
      assert records[k] == e;
    }
  }

  lemma FullPage(records: seq<Entry>, values: seq<Entry>, before: Option<nat>, matches: Entry -> bool, limit: nat)
    requires Descending(records) && 0 < limit < |records|
    requires forall e :: e in records <==> Eligible(e, values, before, matches)
    ensures IsPage(Page(records[..limit], Some(records[limit - 1].record.sequence)), values, before, matches, limit)
  {
    CutDescends(records, limit, records[..limit]);
  }

  lemma PageIsNewest(values: seq<Entry>, before: Option<nat>, matches: Entry -> bool, limit: nat)
    requires 1 <= limit <= 100 && DistinctSequences(values)
    ensures IsPage(List(values, before, matches, limit), values, before, matches, limit)
  {
    var records := NewestFirst(Candidates(values, before, matches));
    CandidatesDistinct(values, before, matches);
    NewestFirstDescends(Candidates(values, before, matches));
    ListIs(values, before, matches, limit, records);
    if |records| > limit {
      FullPage(records, values, before, matches, limit);
    } else {
      WholePage(records, values, before, matches, limit);
    }
  }

  lemma ListIs(values: seq<Entry>, before: Option<nat>, matches: Entry -> bool, limit: nat, records: seq<Entry>)
    requires 1 <= limit <= 100 && records == NewestFirst(Candidates(values, before, matches))
    ensures List(values, before, matches, limit) ==
              if |records| > limit then Page(records[..limit], Some(records[limit - 1].record.sequence))
                  else Page(records, None)
    ensures forall e :: e in records <==> Eligible(e, values, before, matches)
  {}

  lemma WholePage(records: seq<Entry>, values: seq<Entry>, before: Option<nat>, matches: Entry -> bool, limit: nat)
    requires Descending(records) && |records| <= limit
    requires forall e :: e in records <==> Eligible(e, values, before, matches)
    ensures IsPage(Page(records, None), values, before, matches, limit)
  {}

  // ---------- A walk through the pages ----------

  /** Page after page, each from the registry as it is by then and from the cursor of the page before;
      the last one has no cursor. */
  ghost predicate IsWalk(registries: seq<seq<Entry>>, before: Option<nat>, matches: Entry -> bool, limit: nat,
                         pages: seq<Page>)
    requires 1 <= limit <= 100
    decreases |pages|
  {
    && |pages| == |registries| > 0
    && DistinctSequences(registries[0])
    && pages[0] == List(registries[0], before, matches, limit)
    && if pages[0].next.None? then |pages| == 1
       else |pages| > 1 && IsWalk(registries[1..], pages[0].next, matches, limit, pages[1..])
  }

  function Listed(pages: seq<Page>): seq<Entry> {
    if pages == [] then [] else pages[0].entries + Listed(pages[1..])
  }

  lemma DescendingJoins(a: seq<Entry>, b: seq<Entry>, bound: nat)
    requires Descending(a) && Descending(b)
    requires (forall e :: e in a ==> e.record.sequence >= bound) && forall e :: e in b ==> e.record.sequence < bound
    ensures Descending(a + b)
  {
    assert forall k :: 0 <= k < |a| ==> a[k] in a;
    assert forall k :: 0 <= k < |b| ==> b[k] in b;
  }

  /** Whatever is submitted, finished or retired between the pages, the walk lists in strictly decreasing
      submission order, so nothing twice and nothing at or above the cursor it started from. */
  lemma {:induction false} WalkDescends(registries: seq<seq<Entry>>, before: Option<nat>, matches: Entry -> bool,
                                        limit: nat,
                                        pages: seq<Page>)
    requires 1 <= limit <= 100 && IsWalk(registries, before, matches, limit, pages)
    ensures Descending(Listed(pages))
    ensures forall e :: e in Listed(pages) ==> Below(e, before) && matches(e)
    decreases |pages|
  {
    PageIsNewest(registries[0], before, matches, limit);
    var first := pages[0].entries;
    if pages[0].next.None? {
      assert Listed(pages[1..]) == [];
      assert Listed(pages) == first;
    } else {
      WalkDescends(registries[1..], pages[0].next, matches, limit, pages[1..]);
      DescendingJoins(first, Listed(pages[1..]), pages[0].next.value);
      assert first[0] in first;
    }
  }

  ghost predicate AlwaysListed(registries: seq<seq<Entry>>, matches: Entry -> bool, sequence: nat) {
    forall k :: 0 <= k < |registries| ==>
      exists e :: e in registries[k] && e.record.sequence == sequence && matches(e)
  }

  /** An Operation that is retained and matches at every page is listed, and by WalkDescends only once. */
  lemma {:induction false} WalkIsComplete(registries: seq<seq<Entry>>, before: Option<nat>, matches: Entry -> bool,
                                          limit: nat,
                                          pages: seq<Page>, sequence: nat)
    requires 1 <= limit <= 100 && IsWalk(registries, before, matches, limit, pages)
    requires AlwaysListed(registries, matches, sequence) && (before.Some? ==> sequence < before.value)
    ensures exists e :: e in Listed(pages) && e.record.sequence == sequence
    decreases |pages|
  {
    PageIsNewest(registries[0], before, matches, limit);
    var e :| e in registries[0] && e.record.sequence == sequence && matches(e);
    assert Eligible(e, registries[0], before, matches);
    if e in pages[0].entries {
      assert e in Listed(pages);
    } else {
      forall k | 0 <= k < |registries[1..]|
        ensures exists e :: e in registries[1..][k] && e.record.sequence == sequence && matches(e)
      {
        assert registries[1..][k] == registries[k + 1];
      }
      WalkIsComplete(registries[1..], pages[0].next, matches, limit, pages[1..], sequence);
      var later :| later in Listed(pages[1..]) && later.record.sequence == sequence;
      assert later in Listed(pages);
    }
  }

  // ---------- The registry ----------

  // `values` are the retained Operations of the registry, each once, in any order.
  ghost predicate ValuesOf(values: seq<Entry>, s: OperationRegistry.Registry) {
    && (forall i, j :: 0 <= i < j < |values| ==> values[i].id != values[j].id)
    && (forall e :: e in values <==> e.id in s.cells && s.cells[e.id].present && e.record == s.cells[e.id].r)
  }

  /** The Operations of a registry in any reachable state have distinct sequence numbers, as paging needs. */
  lemma RegistryHasDistinctSequences(values: seq<Entry>, s: OperationRegistry.Registry)
    requires OperationRegistry.Reachable(s) && ValuesOf(values, s)
    ensures DistinctSequences(values)
  {
    OperationRegistry.ReachableInv(s);
    forall i, j | 0 <= i < j < |values|
      ensures values[i].record.sequence != values[j].record.sequence
    {
      assert values[i] in values && values[j] in values;
    }
  }

  // ---------- Cursors ----------

  const U64_LIMIT: nat := 0x1_0000_0000_0000_0000

  function Digit(n: nat): char
    requires n < 10
  {
    '0' + n as char
  }

  function Decimal(n: nat): string {
    if n < 10 then [Digit(n)] else Decimal(n / 10) + [Digit(n % 10)]
  }

  function Cursor(runtimeId: string, sequence: nat): string {
    runtimeId + ":" + Decimal(sequence)
  }

  predicate IsDigit(c: char) {
    '0' <= c <= '9'
  }

  function Value(digits: string): nat {
    if digits == "" then 0 else Value(digits[..|digits| - 1]) * 10 + DigitValue(digits[|digits| - 1])
  }

  function DigitValue(c: char): nat {
    if IsDigit(c) then c as int - '0' as int else 0
  }

  // str::parse::<u64>: an optional plus sign, then digits only, and no overflow.
  function ParseU64(text: string): Option<nat> {
    var digits := if text != "" && text[0] == '+' then text[1..] else text;
    if digits == "" || (exists k :: 0 <= k < |digits| && !IsDigit(digits[k])) || Value(digits) >= U64_LIMIT then None
    else Some(Value(digits))
  }

  function LastColon(text: string): (at: int)
    ensures -1 <= at < |text|
    ensures at >= 0 ==> text[at] == ':'
    ensures forall k :: at < k < |text| ==> text[k] != ':'
  {
    if text == "" then -1
    else if text[|text| - 1] == ':' then |text| - 1
    else LastColon(text[..|text| - 1])
  }

  function ParseCursor(runtimeId: string, cursor: string): Option<nat> {
    var at := LastColon(cursor);
    if at < 0 || cursor[..at] != runtimeId then None else ParseU64(cursor[at + 1..])
  }

  lemma {:induction false} DecimalReadsBack(n: nat)
    ensures Decimal(n) != "" && Value(Decimal(n)) == n
    ensures forall k :: 0 <= k < |Decimal(n)| ==> IsDigit(Decimal(n)[k])
  {
    if n < 10 {
      assert Decimal(n)[..0] == "";
    } else {
      DecimalReadsBack(n / 10);
      assert Decimal(n)[..|Decimal(n)| - 1] == Decimal(n / 10);
    }
  }

  lemma LastColonIs(text: string, at: nat)
    requires at < |text| && text[at] == ':' && forall k :: at < k < |text| ==> text[k] != ':'
    ensures LastColon(text) == at
  {}

  /** A cursor is read back by the Runtime that wrote it, whatever its identifier, for every sequence
      number that fits 64 bits and for no other, and is refused by every other Runtime. */
  lemma CursorReadsBack(runtimeId: string, other: string, sequence: nat)
    ensures ParseCursor(other, Cursor(runtimeId, sequence)) ==
              if other == runtimeId && sequence < U64_LIMIT then Some(sequence) else None
  {
    DecimalReadsBack(sequence);
    var cursor, digits := Cursor(runtimeId, sequence), Decimal(sequence);
    assert cursor[|runtimeId|] == ':';
    assert forall k :: |runtimeId| < k < |cursor| ==> cursor[k] == digits[k - |runtimeId| - 1];
    LastColonIs(cursor, |runtimeId|);
    assert cursor[..|runtimeId|] == runtimeId && cursor[|runtimeId| + 1..] == digits;
    assert IsDigit(digits[0]);
  }
}
