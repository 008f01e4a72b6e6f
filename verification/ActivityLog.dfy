/** The Runtime's Activity log: mutations of the record list, the event each one emits, and what a
    subscriber rebuilds from a snapshot and the events after it. */
module ActivityLog {
  import opened Options

  datatype ActivitySource =
    | ProjectSource | CanvasSource | ExplorerSource | ModelRequestSource | PhotoshopSource | WorkbenchSource
    | UpdateSource

  datatype NoticeReport =
    | ProjectOpened | ProjectOperationFailed(operation: string) | CanvasOperationFailed(operation: string)
    | ExplorerOperationFailed(operation: string) | WorkbenchOperationFailed(operation: string) | UpdateInstallFailed
  {
    function Source(): ActivitySource {
      match this
      case ProjectOpened => ProjectSource
      case ProjectOperationFailed(_) => ProjectSource
      case CanvasOperationFailed(_) => CanvasSource
      case ExplorerOperationFailed(_) => ExplorerSource
      case WorkbenchOperationFailed(_) => WorkbenchSource
      case UpdateInstallFailed => UpdateSource
    }
  }

  datatype TaskMessage = ModelRequest(kind: string, itemCount: nat) | PhotoshopSend(path: string, title: Option<string>)
  {
    function Source(): ActivitySource {
      if ModelRequest? then ModelRequestSource else PhotoshopSource
    }
  }

  datatype TaskStatus = Running | Cancelling | Succeeded | Failed | Cancelled
  {
    predicate IsTerminal() {
      Succeeded? || Failed? || Cancelled?
    }
  }

  datatype Progress = Indeterminate | Determinate(completed: nat, total: nat)
  {
    predicate IsValid() {
      Determinate? ==> total > 0 && completed <= total
    }
  }

  datatype Payload = Notice(report: NoticeReport) | Task(status: TaskStatus, progress: Progress, message: TaskMessage)
  {
    function Source(): ActivitySource {
      if Notice? then report.Source() else message.Source()
    }
  }

  datatype Record = Record(
    id: string, source: ActivitySource, project: Option<string>, createdAt: string, updatedAt: string, payload: Payload)
  {
    predicate IsActiveTask() {
      payload.Task? && !payload.status.IsTerminal()
    }

    predicate IsTerminal() {
      !IsActiveTask()
    }
  }

  datatype Change = Upsert(record: Record) | Remove(ids: seq<string>)

  datatype UpdateError = NotFound | NotActive | InvalidProgress
  datatype UpdateResult = Updated(record: Record) | Rejected(error: UpdateError)

  // ---------- Lists of records ----------

  predicate Has(records: seq<Record>, id: string) {
    records != [] && (records[0].id == id || Has(records[1..], id))
  }

  predicate UniqueIds(records: seq<Record>) {
    records == [] || (!Has(records[1..], records[0].id) && UniqueIds(records[1..]))
  }

  function Find(records: seq<Record>, id: string): Option<Record> {
    if records == [] then None
    else if records[0].id == id then Some(records[0])
    else Find(records[1..], id)
  }

  /** Every record of `records` with the id of `record` replaced by it. */
  function Replace(records: seq<Record>, record: Record): seq<Record> {
    if records == [] then []
    else [if records[0].id == record.id then record else records[0]] + Replace(records[1..], record)
  }

  function Without(records: seq<Record>, ids: seq<string>): seq<Record> {
    if records == [] then []
    else (if records[0].id in ids then [] else [records[0]]) + Without(records[1..], ids)
  }

  function ActiveTasks(records: seq<Record>): seq<Record> {
    if records == [] then []
    else (if records[0].IsActiveTask() then [records[0]] else []) + ActiveTasks(records[1..])
  }

  function TerminalIds(records: seq<Record>): seq<string> {
    if records == [] then []
    else (if records[0].IsTerminal() then [records[0].id] else []) + TerminalIds(records[1..])
  }

  /** How a change reads: in place or at the front, or removal by id. */
  function ApplyChange(records: seq<Record>, change: Change): seq<Record> {
    match change
    case Upsert(record) => if Has(records, record.id) then Replace(records, record) else [record] + records
    case Remove(ids) => Without(records, ids)
  }

  function Replay(start: seq<Record>, events: seq<Change>): seq<Record> {
    if events == [] then start
    else ApplyChange(Replay(start, events[..|events| - 1]), events[|events| - 1])
  }

  lemma ReplayOne(start: seq<Record>, events: seq<Change>, change: Change)
    ensures Replay(start, events + [change]) == ApplyChange(Replay(start, events), change)
  {
    assert (events + [change])[..|events|] == events;
  }

  lemma {:induction false} HasAt(records: seq<Record>, k: nat)
    requires k < |records|
    ensures Has(records, records[k].id)
  {
    if k == 0 {
    } else {
      HasAt(records[1..], k - 1);
    }
  }

  /** A failed search: no record has the id. */
  lemma {:induction false} HasNone(records: seq<Record>, id: string)
    requires forall k :: 0 <= k < |records| ==> records[k].id != id
    ensures !Has(records, id)
  {
    if records == [] {
    } else {
      HasNone(records[1..], id);
    }
  }

  lemma {:induction false} ReplaceAbsent(records: seq<Record>, record: Record)
    requires !Has(records, record.id)
    ensures Replace(records, record) == records
  {
    if records == [] {
    } else {
      ReplaceAbsent(records[1..], record);
    }
  }

  lemma {:induction false} ReplaceAt(records: seq<Record>, k: nat, record: Record)
    requires k < |records| && records[k].id == record.id && UniqueIds(records)
    ensures Replace(records, record) == records[k := record]
  {
    if k > 0 {
      HasAt(records[1..], k - 1);
      ReplaceAt(records[1..], k - 1, record);
    } else {
      ReplaceAbsent(records[1..], record);
    }
  }

  lemma {:induction false} ReplaceHas(records: seq<Record>, record: Record, id: string)
    ensures Has(Replace(records, record), id) <==> Has(records, id)
  {
    if records == [] {
    } else {
      ReplaceHas(records[1..], record, id);
    }
  }

  lemma {:induction false} ReplaceKeepsUnique(records: seq<Record>, record: Record)
    requires UniqueIds(records)
    ensures UniqueIds(Replace(records, record))
  {
    if records == [] {
    } else {
      ReplaceKeepsUnique(records[1..], record);
      ReplaceHas(records[1..], record, records[0].id);
    }
  }

  lemma {:induction false} WithoutAbsent(records: seq<Record>, id: string)
    requires !Has(records, id)
    ensures Without(records, [id]) == records
  {
    if records == [] {
    } else {
      WithoutAbsent(records[1..], id);
    }
  }

  lemma WithoutFirst(records: seq<Record>, id: string)
    requires records != []
    ensures Without(records, [id]) ==
              if records[0].id == id then Without(records[1..], [id]) else [records[0]] + Without(records[1..], [id])
  {}

  lemma CutAfterFirst(records: seq<Record>, k: nat)
    requires 0 < k < |records|
    ensures records[..k] + records[k + 1..] == [records[0]] + (records[1..][..k - 1] + records[1..][k..])
  {}

  lemma {:induction false} WithoutAt(records: seq<Record>, k: nat)
    requires k < |records| && UniqueIds(records)
    ensures Without(records, [records[k].id]) == records[..k] + records[k + 1..]
  {
    if k > 0 {
      var rest := records[1..];
      HasAt(rest, k - 1);
      WithoutAt(rest, k - 1);
      assert records[k] == rest[k - 1];
      WithoutFirst(records, records[k].id);
      CutAfterFirst(records, k);
    } else {
      WithoutAbsent(records[1..], records[0].id);
      WithoutFirst(records, records[0].id);
      assert records[..0] + records[1..] == records[1..];
    }
  }

  lemma {:induction false} WithoutHas(records: seq<Record>, ids: seq<string>, id: string)
    ensures Has(Without(records, ids), id) <==> Has(records, id) && id !in ids
  {
    if records == [] {
    } else {
      WithoutHas(records[1..], ids, id);
      var rest := Without(records[1..], ids);
      assert ([records[0]] + rest)[1..] == rest && [] + rest == rest;
    }
  }

  lemma {:induction false} WithoutKeepsUnique(records: seq<Record>, ids: seq<string>)
    requires UniqueIds(records)
    ensures UniqueIds(Without(records, ids))
  {
    if records == [] {
    } else {
      WithoutKeepsUnique(records[1..], ids);
      WithoutHas(records[1..], ids, records[0].id);
      var rest := Without(records[1..], ids);
      assert ([records[0]] + rest)[1..] == rest && [] + rest == rest;
    }
  }

  lemma {:induction false} TerminalIdsOf(records: seq<Record>, id: string)
    requires !Has(records, id)
    ensures id !in TerminalIds(records)
  {
    if records == [] {
    } else {
      TerminalIdsOf(records[1..], id);
    }
  }

  // Removing ids that none of the records has changes nothing.
  lemma {:induction false} WithoutOthers(records: seq<Record>, id: string, ids: seq<string>)
    requires !Has(records, id)
    ensures Without(records, [id] + ids) == Without(records, ids)
  {
    if records == [] {
    } else {
      WithoutOthers(records[1..], id, ids);
      assert records[0].id in [id] + ids <==> records[0].id in ids;
    }
  }

  /** Removing the terminal ids leaves exactly the active tasks. */
  lemma {:induction false} ClearTerminalIsRemove(records: seq<Record>)
    requires UniqueIds(records)
    ensures Without(records, TerminalIds(records)) == ActiveTasks(records)
  {
    if records == [] {
    } else {
      var rest := records[1..];
      ClearTerminalIsRemove(rest);
      if records[0].IsTerminal() {
        WithoutOthers(rest, records[0].id, TerminalIds(rest));
        assert records[0].id in [records[0].id] + TerminalIds(rest);
      } else {
        TerminalIdsOf(rest, records[0].id);
        assert [] + TerminalIds(rest) == TerminalIds(rest);
      }
    }
  }

  lemma ChangeKeepsUnique(records: seq<Record>, change: Change)
    requires UniqueIds(records)
    ensures UniqueIds(ApplyChange(records, change))
  {
    match change
    case Upsert(record) =>
      ReplaceKeepsUnique(records, record);
      assert ([record] + records)[1..] == records;
    case Remove(ids) => WithoutKeepsUnique(records, ids);
  }

  lemma {:induction false} ReplayKeepsUnique(start: seq<Record>, events: seq<Change>)
    requires UniqueIds(start)
    ensures UniqueIds(Replay(start, events))
  {
    if events == [] {
    } else {
      ReplayKeepsUnique(start, events[..|events| - 1]);
      ChangeKeepsUnique(Replay(start, events[..|events| - 1]), events[|events| - 1]);
    }
  }

  /** A snapshot taken at any revision, followed by the events after it, gives the current list. */
  lemma {:induction false} SnapshotPlusLaterEvents(start: seq<Record>, events: seq<Change>, r: nat)
    requires r <= |events|
    ensures Replay(Replay(start, events[..r]), events[r..]) == Replay(start, events)
  {
    if r == |events| {
      assert events[..r] == events;
    } else {
      var before := events[..|events| - 1];
      SnapshotPlusLaterEvents(start, before, r);
      assert before[..r] == events[..r] && events[r..][..|events| - 1 - r] == before[r..];
    }
  }

  // ---------- The Workbench client ----------

  /** The client's own reading of a change: it appends a new record at the end of its list. */
  function ClientApply(records: seq<Record>, change: Change): seq<Record> {
    match change
    case Upsert(record) => if Has(records, record.id) then Replace(records, record) else records + [record]
    case Remove(ids) => Without(records, ids)
  }

  function ClientReplay(start: seq<Record>, events: seq<Change>): seq<Record> {
    if events == [] then start
    else ClientApply(ClientReplay(start, events[..|events| - 1]), events[|events| - 1])
  }

  /** The same records, in whatever order. */
  ghost predicate SameRecords(a: seq<Record>, b: seq<Record>) {
    multiset(a) == multiset(b)
  }

  lemma {:induction false} HasIsMember(records: seq<Record>, id: string)
    ensures Has(records, id) <==> exists x :: x in multiset(records) && x.id == id
  {
    if records == [] {
    } else {
      assert records == [records[0]] + records[1..];
      HasIsMember(records[1..], id);
    }
  }

  lemma {:induction false} ReplaceMultiset(records: seq<Record>, record: Record, x: Record)
    ensures x.id != record.id ==> multiset(Replace(records, record))[x] == multiset(records)[x]
    ensures x.id == record.id && x != record ==> multiset(Replace(records, record))[x] == 0
  {
    if records == [] {
    } else {
      assert records == [records[0]] + records[1..];
      ReplaceMultiset(records[1..], record, x);
    }
  }

  lemma {:induction false} WithoutMultiset(records: seq<Record>, ids: seq<string>, x: Record)
    ensures multiset(Without(records, ids))[x] == if x.id in ids then 0 else multiset(records)[x]
  {
    if records == [] {
    } else {
      assert records == [records[0]] + records[1..];
      WithoutMultiset(records[1..], ids, x);
    }
  }

  lemma {:induction false} ReplaceOnce(records: seq<Record>, record: Record)
    requires UniqueIds(records)
    ensures multiset(Replace(records, record))[record] == if Has(records, record.id) then 1 else 0
  {
    if records == [] {
    } else {
      assert records == [records[0]] + records[1..];
      ReplaceOnce(records[1..], record);
    }
  }

  lemma SameAfterChange(a: seq<Record>, b: seq<Record>, change: Change)
    requires SameRecords(a, b) && UniqueIds(a) && UniqueIds(b)
    ensures SameRecords(ClientApply(a, change), ApplyChange(b, change))
  {
    match change
    case Upsert(record) =>
      HasIsMember(a, record.id);
      HasIsMember(b, record.id);
      if Has(a, record.id) {
        forall x
          ensures multiset(Replace(a, record))[x] == multiset(Replace(b, record))[x]
        {
          ReplaceMultiset(a, record, x);
          ReplaceMultiset(b, record, x);
          ReplaceOnce(a, record);
          ReplaceOnce(b, record);
        }
      }
    case Remove(ids) =>
      forall x
        ensures multiset(Without(a, ids))[x] == multiset(Without(b, ids))[x]
      {
        WithoutMultiset(a, ids, x);
        WithoutMultiset(b, ids, x);
      }
  }

  lemma {:induction false} ClientKeepsUnique(start: seq<Record>, events: seq<Change>)
    requires UniqueIds(start)
    ensures UniqueIds(ClientReplay(start, events))
  {
    if events == [] {
    } else {
      var before, change := ClientReplay(start, events[..|events| - 1]), events[|events| - 1];
      ClientKeepsUnique(start, events[..|events| - 1]);
      match change
      case Upsert(record) =>
        ReplaceKeepsUnique(before, record);
        if !Has(before, record.id) {
          AppendKeepsUnique(before, record);
        }
      case Remove(ids) => WithoutKeepsUnique(before, ids);
    }
  }

  lemma {:induction false} AppendHas(records: seq<Record>, record: Record, id: string)
    ensures Has(records + [record], id) <==> Has(records, id) || record.id == id
  {
    if records == [] {
    } else {
      assert (records + [record])[1..] == records[1..] + [record];
      AppendHas(records[1..], record, id);
    }
  }

  lemma {:induction false} AppendKeepsUnique(records: seq<Record>, record: Record)
    requires UniqueIds(records) && !Has(records, record.id)
    ensures UniqueIds(records + [record])
  {
    if records == [] {
    } else {
      assert (records + [record])[1..] == records[1..] + [record];
      AppendHas(records[1..], record, records[0].id);
      AppendKeepsUnique(records[1..], record);
    }
  }

  /** From the same snapshot, the client always holds exactly the Runtime's records. */
  lemma {:induction false} ClientHoldsTheRecords(start: seq<Record>, events: seq<Change>)
    requires UniqueIds(start)
    ensures SameRecords(ClientReplay(start, events), Replay(start, events))
  {
    if events == [] {
    } else {
      var before := events[..|events| - 1];
      ClientHoldsTheRecords(start, before);
      ClientKeepsUnique(start, before);
      ReplayKeepsUnique(start, before);
      SameAfterChange(ClientReplay(start, before), Replay(start, before), events[|events| - 1]);
    }
  }

  /** But not in the Runtime's order: a change keeps the two lists equal exactly when it adds no new
      record to a list that holds any. */
  lemma ClientOrder(records: seq<Record>, change: Change)
    requires UniqueIds(records)
    ensures ClientApply(records, change) == ApplyChange(records, change)
       <==> !(change.Upsert? && !Has(records, change.record.id) && records != [])
  {
    if change.Upsert? && !Has(records, change.record.id) && records != [] {
      assert ClientApply(records, change)[0].id != ApplyChange(records, change)[0].id;
    }
  }

  /** The two orders of a second record. */
  lemma ClientOrderIsLost(first: Record, second: Record)
    requires first.id != second.id
    ensures ApplyChange([first], Upsert(second)) == [second, first]
    ensures ClientApply([first], Upsert(second)) == [first, second]
  {
    assert [first][1..] == [] && !Has([first], second.id);
  }

  // ---------- The order over a whole run ----------

  /** The client's list in two parts: what is left of the records it started with, and the records added
      since, in the order they came. */
  function Parts(start: seq<Record>, events: seq<Change>): (seq<Record>, seq<Record>) {
    if events == [] then (start, [])
    else
      var (kept, added) := Parts(start, events[..|events| - 1]);
      match events[|events| - 1]
      case Upsert(record) =>
        if Has(kept, record.id) || Has(added, record.id) then (Replace(kept, record), Replace(added, record))
        else (kept, added + [record])
      case Remove(ids) => (Without(kept, ids), Without(added, ids))
  }

  function Reversed(records: seq<Record>): seq<Record> {
    if records == [] then [] else Reversed(records[1..]) + [records[0]]
  }

  lemma {:induction false} HasJoined(a: seq<Record>, b: seq<Record>, id: string)
    ensures Has(a + b, id) <==> Has(a, id) || Has(b, id)
  {
    if a == [] {
      assert a + b == b;
    } else {
      assert (a + b)[1..] == a[1..] + b;
      HasJoined(a[1..], b, id);
    }
  }

  lemma {:induction false} ReplaceJoined(a: seq<Record>, b: seq<Record>, record: Record)
    ensures Replace(a + b, record) == Replace(a, record) + Replace(b, record)
  {
    if a == [] {
      assert a + b == b;
    } else {
      assert (a + b)[1..] == a[1..] + b;
      ReplaceJoined(a[1..], b, record);
    }
  }

  lemma {:induction false} WithoutJoined(a: seq<Record>, b: seq<Record>, ids: seq<string>)
    ensures Without(a + b, ids) == Without(a, ids) + Without(b, ids)
  {
    if a == [] {
      assert a + b == b;
    } else {
      assert (a + b)[1..] == a[1..] + b;
      WithoutJoined(a[1..], b, ids);
    }
  }

  lemma {:induction false} ReversedHas(records: seq<Record>, id: string)
    ensures Has(Reversed(records), id) <==> Has(records, id)
  {
    if records == [] {
    } else {
      ReversedHas(records[1..], id);
      HasJoined(Reversed(records[1..]), [records[0]], id);
    }
  }

  lemma {:induction false} ReversedReplace(records: seq<Record>, record: Record)
    ensures Replace(Reversed(records), record) == Reversed(Replace(records, record))
  {
    if records == [] {
    } else {
      ReversedReplace(records[1..], record);
      ReplaceJoined(Reversed(records[1..]), [records[0]], record);
      assert [records[0]][1..] == [];
      assert Replace(records, record)[1..] == Replace(records[1..], record);
    }
  }

  lemma {:induction false} ReversedWithout(records: seq<Record>, ids: seq<string>)
    ensures Without(Reversed(records), ids) == Reversed(Without(records, ids))
  {
    if records == [] {
    } else {
      var first := [records[0]];
      ReversedWithout(records[1..], ids);
      WithoutJoined(Reversed(records[1..]), first, ids);
      assert first[1..] == [];
      if records[0].id in ids {
        assert Without(records, ids) == Without(records[1..], ids) && Without(first, ids) == [];
      } else {
        assert Without(records, ids)[1..] == Without(records[1..], ids) && Without(first, ids) == first;
      }
    }
  }

  lemma {:induction false} ReversedAppends(records: seq<Record>, record: Record)
    ensures Reversed(records + [record]) == [record] + Reversed(records)
  {
    if records == [] {
      assert [record][1..] == [];
    } else {
      assert (records + [record])[1..] == records[1..] + [record];
      ReversedAppends(records[1..], record);
    }
  }

  // One change of two lists made of the same parts.
  lemma HasOfBoth(kept: seq<Record>, added: seq<Record>, id: string)
    ensures Has(kept + added, id) <==> Has(kept, id) || Has(added, id)
    ensures Has(Reversed(added) + kept, id) <==> Has(kept, id) || Has(added, id)
  {
    HasJoined(kept, added, id);
    HasJoined(Reversed(added), kept, id);
    ReversedHas(added, id);
  }

  lemma ReplaceOfBoth(kept: seq<Record>, added: seq<Record>, record: Record)
    ensures Replace(kept + added, record) == Replace(kept, record) + Replace(added, record)
    ensures Replace(Reversed(added) + kept, record) == Reversed(Replace(added, record)) + Replace(kept, record)
  {
    ReversedReplace(added, record);
    ReplaceJoined(kept, added, record);
    ReplaceJoined(Reversed(added), kept, record);
  }

  lemma AddToBoth(kept: seq<Record>, added: seq<Record>, record: Record)
    ensures kept + added + [record] == kept + (added + [record])
    ensures [record] + (Reversed(added) + kept) == Reversed(added + [record]) + kept
  {
    ReversedAppends(added, record);
  }

  lemma RemoveOfBoth(kept: seq<Record>, added: seq<Record>, ids: seq<string>)
    ensures Without(kept + added, ids) == Without(kept, ids) + Without(added, ids)
    ensures Without(Reversed(added) + kept, ids) == Reversed(Without(added, ids)) + Without(kept, ids)
  {
    ReversedWithout(added, ids);
    WithoutJoined(kept, added, ids);
    WithoutJoined(Reversed(added), kept, ids);
  }

  /** Both lists are made of the same two parts: the client appends what the Runtime puts in front. */
  lemma {:induction false} PartsOfBoth(start: seq<Record>, events: seq<Change>)
    ensures var (kept, added) := Parts(start, events);
            ClientReplay(start, events) == kept + added && Replay(start, events) == Reversed(added) + kept
  {
    if events == [] {
      assert start + [] == start && Reversed([]) + start == start;
    } else {
      PartsOfBoth(start, events[..|events| - 1]);
      var (kept, added) := Parts(start, events[..|events| - 1]);
      match events[|events| - 1]
      case Upsert(record) =>
        HasOfBoth(kept, added, record.id);
        if Has(kept, record.id) || Has(added, record.id) {
          ReplaceOfBoth(kept, added, record);
        } else {
          AddToBoth(kept, added, record);
        }
      case Remove(ids) => RemoveOfBoth(kept, added, ids);
    }
  }

  lemma {:induction false} LastOfReversed(records: seq<Record>)
    requires records != []
    ensures |Reversed(records)| == |records| && Reversed(records)[0] == records[|records| - 1]
  {
    if |records| == 1 {
    } else {
      LastOfReversed(records[1..]);
    }
  }

  lemma {:induction false} IdsDiffer(records: seq<Record>, i: nat, j: nat)
    requires UniqueIds(records) && i < j < |records|
    ensures records[i] != records[j]
  {
    if i == 0 {
      HasAt(records[1..], j - 1);
    } else {
      IdsDiffer(records[1..], i - 1, j - 1);
    }
  }

  /** After any events the client's list is the Runtime's, order and all, exactly when no record added
      since the snapshot is left, or only one record is left at all. */
  lemma ClientOrderExactly(start: seq<Record>, events: seq<Change>)
    requires UniqueIds(start)
    ensures var (kept, added) := Parts(start, events);
            ClientReplay(start, events) == Replay(start, events) <==> added == [] || |kept| + |added| == 1
  {
    PartsOfBoth(start, events);
    ClientKeepsUnique(start, events);
    var (kept, added) := Parts(start, events);
    if added == [] {
      assert kept + added == Reversed(added) + kept;
    } else {
      LastOfReversed(added);
      var list := kept + added;
      assert list[|list| - 1] == added[|added| - 1] && (Reversed(added) + kept)[0] == added[|added| - 1];
      if |list| > 1 {
        IdsDiffer(list, 0, |list| - 1);
      } else {
        assert Reversed(added) + kept == added;
      }
    }
  }
}
