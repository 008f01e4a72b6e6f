/** ActivityService as an object: each mutation of the record list and the event it emits, under the
    state lock. The clock and fresh ids are parameters. */
module ActivityService {
  import opened Options
  import opened ActivityLog

  datatype Event = Event(revision: nat, change: Change, observed: bool)

  lemma {:induction false} FindAt(records: seq<Record>, k: nat)
    requires k < |records| && UniqueIds(records)
    ensures Find(records, records[k].id) == Some(records[k])
  {
    if k == 0 {
    } else {
      HasAt(records[1..], k - 1);
      FindAt(records[1..], k - 1);
    }
  }

  lemma {:induction false} FindNone(records: seq<Record>, id: string)
    requires !Has(records, id)
    ensures Find(records, id) == None
  {
    if records == [] {
    } else {
      FindNone(records[1..], id);
    }
  }

  lemma {:induction false} TerminalIdsStep(records: seq<Record>, k: nat)
    requires k < |records|
    ensures TerminalIds(records[..k + 1])
         == TerminalIds(records[..k]) + if records[k].IsTerminal() then [records[k].id] else []
  {
    assert records[..k + 1][1..] == records[1..][..k];
    if k == 0 {
    } else {
      assert records[..k][1..] == records[1..][..k - 1];
      TerminalIdsStep(records[1..], k - 1);
    }
  }

  lemma {:induction false} ActiveTasksStep(records: seq<Record>, k: nat)
    requires k < |records|
    ensures ActiveTasks(records[..k + 1])
         == ActiveTasks(records[..k]) + if records[k].IsActiveTask() then [records[k]] else []
  {
    assert records[..k + 1][1..] == records[1..][..k];
    if k == 0 {
    } else {
      assert records[..k][1..] == records[1..][..k - 1];
      ActiveTasksStep(records[1..], k - 1);
    }
  }

  lemma {:induction false} NothingTerminal(records: seq<Record>)
    requires TerminalIds(records) == []
    ensures ActiveTasks(records) == records
  {
    if records == [] {
    } else {
      NothingTerminal(records[1..]);
    }
  }

  class ActivityService {
    var revision: nat
    var records: seq<Record>
    var observerInstalled: bool
    ghost var events: seq<Change>        // the change of every revision so far

    /** The event stream rebuilds the list: replaying every event gives the records. */
    ghost predicate Valid()
      reads this
    {
      revision == |events| && UniqueIds(records) && records == Replay([], events)
    }

    constructor ()
      ensures Valid() && revision == 0 && records == [] && !observerInstalled
    {
      revision, records, observerInstalled, events := 0, [], false, [];
    }

    method InstallObserver() returns (installed: bool)
      requires Valid()
      modifies `observerInstalled
      ensures Valid() && observerInstalled && installed == !old(observerInstalled)
    {
      installed := !observerInstalled;
      observerInstalled := true;
    }

    method SyncSnapshot() returns (at: nat, snapshot: seq<Record>)
      requires Valid()
      ensures at == revision && snapshot == records == Replay([], events[..at])
    {
      assert events[..revision] == events;
      at, snapshot := revision, records;
    }

    // next_event, for a list that already shows the change.
    method NextEvent(change: Change, ghost before: seq<Record>) returns (event: Event)
      requires revision == |events| && UniqueIds(before) && before == Replay([], events)
      requires records == ApplyChange(before, change)
      modifies `revision, `events
      ensures Valid() && events == old(events) + [change]
      ensures event == Event(revision, change, observerInstalled)
    {
      ReplayOne([], events, change);
      ChangeKeepsUnique(before, change);
      revision := revision + 1;
      events := events + [change];
      event := Event(revision, change, observerInstalled);
    }

    method Position(id: string) returns (index: Option<nat>)
      requires Valid()
      ensures index.Some? ==>
                  index.value < |records| && records[index.value].id == id
                  && Find(records, id) == Some(records[index.value])
      ensures index.None? ==> !Has(records, id) && Find(records, id) == None
    {
      for k := 0 to |records|
        invariant forall m :: 0 <= m < k ==> records[m].id != id
      {
        if records[k].id == id {
          FindAt(records, k);
          return Some(k);
        }
      }
      HasNone(records, id);
      FindNone(records, id);
      index := None;
    }

    method Insert(id: string, project: Option<string>, payload: Payload, now: string)
      returns (record: Record, event: Event)
      requires Valid() && !Has(records, id)
      modifies this
      ensures Valid() && observerInstalled == old(observerInstalled)
      ensures record == Record(id, payload.Source(), project, now, now, payload)
      ensures records == [record] + old(records)
      ensures event == Event(old(revision) + 1, Upsert(record), observerInstalled)
      ensures events == old(events) + [Upsert(record)]
    {
      record := Record(id, payload.Source(), project, now, now, payload);
      records := [record] + records;
      event := NextEvent(Upsert(record), old(records));
    }

    method UpsertTask(id: string, project: Option<string>, message: TaskMessage, status: TaskStatus,
                      progress: Progress, now: string)
      returns (result: UpdateResult, event: Option<Event>)
      requires Valid()
      modifies this
      ensures Valid() && observerInstalled == old(observerInstalled)
      ensures var found := Find(old(records), id);
              result == if !progress.IsValid() then Rejected(InvalidProgress)
                        else if found.Some? && !found.value.IsActiveTask() then Rejected(NotActive)
                        else Updated(Record(id, message.Source(), project, if found.Some? then found.value.createdAt
                            else now, now,
                                            Task(status, progress, message)))
      ensures result.Updated? ==>
                && records == ApplyChange(old(records), Upsert(result.record))
                && event == Some(Event(old(revision) + 1, Upsert(result.record), observerInstalled))
                && events == old(events) + [Upsert(result.record)]
      ensures result.Rejected? ==>
                records == old(records) && revision == old(revision) && events == old(events) && event == None
    {
      if !progress.IsValid() {
        return Rejected(InvalidProgress), None;
      }
      var record;
      var index := Position(id);
      if index.Some? {
        var existing := records[index.value];
        if existing.payload.Notice? || existing.payload.status.IsTerminal() {
          return Rejected(NotActive), None;
        }
        record := existing.(payload := Task(status, progress, message), project := project,
                            source := message.Source(), updatedAt := now);
        HasAt(records, index.value);
        ReplaceAt(records, index.value, record);
        records := records[index.value := record];
      } else {
        record := Record(id, message.Source(), project, now, now, Task(status, progress, message));
        records := [record] + records;
      }
      var emitted := NextEvent(Upsert(record), old(records));
      return Updated(record), Some(emitted);
    }

    method UpdateTask(id: string, status: TaskStatus, progress: Progress, now: string)
      returns (result: UpdateResult, event: Option<Event>)
      requires Valid()
      modifies this
      ensures Valid() && observerInstalled == old(observerInstalled)
      ensures var found := Find(old(records), id);
              result == if !progress.IsValid() then Rejected(InvalidProgress)
                        else if found.None? then Rejected(NotFound)
                        else if !found.value.IsActiveTask() then Rejected(NotActive)
                        else Updated(found.value.(payload := Task(status, progress, found.value.payload.message),
                            updatedAt := now))
      ensures result.Updated? ==>
                && records == ApplyChange(old(records), Upsert(result.record))
                && event == Some(Event(old(revision) + 1, Upsert(result.record), observerInstalled))
                && events == old(events) + [Upsert(result.record)]
      ensures result.Rejected? ==>
                records == old(records) && revision == old(revision) && events == old(events) && event == None
    {
      if !progress.IsValid() {
        return Rejected(InvalidProgress), None;
      }
      var index := Position(id);
      if index.None? {
        return Rejected(NotFound), None;
      }
      var record := records[index.value];
      if record.payload.Notice? || record.payload.status.IsTerminal() {
        return Rejected(NotActive), None;
      }
      record := record.(payload := record.payload.(status := status, progress := progress), updatedAt := now);
      HasAt(records, index.value);
      ReplaceAt(records, index.value, record);
      records := records[index.value := record];
      var emitted := NextEvent(Upsert(record), old(records));
      return Updated(record), Some(emitted);
    }

    method DismissTerminal(id: string) returns (dismissed: bool, event: Option<Event>)
      requires Valid()
      modifies this
      ensures Valid() && observerInstalled == old(observerInstalled)
      ensures dismissed <==> Find(old(records), id).Some? && Find(old(records), id).value.IsTerminal()
      ensures dismissed ==>
                && records == Without(old(records), [id]) && !Has(records, id)
                && event == Some(Event(old(revision) + 1, Remove([id]), observerInstalled))
                && events == old(events) + [Remove([id])]
      ensures !dismissed ==>
                  records == old(records) && revision == old(revision) && events == old(events) && event == None
    {
      var index := Position(id);
      if index.None? || !records[index.value].IsTerminal() {
        return false, None;
      }
      WithoutAt(records, index.value);
      WithoutHas(records, [id], id);
      records := records[..index.value] + records[index.value + 1..];
      var emitted := NextEvent(Remove([id]), old(records));
      return true, Some(emitted);
    }

    method ClearTerminal() returns (count: nat, event: Option<Event>)
      requires Valid()
      modifies this
      ensures Valid() && observerInstalled == old(observerInstalled)
      ensures count == |TerminalIds(old(records))| && records == ActiveTasks(old(records))
      ensures count > 0 ==>
                && event == Some(Event(old(revision) + 1, Remove(TerminalIds(old(records))), observerInstalled))
                && events == old(events) + [Remove(TerminalIds(old(records)))]
      ensures count == 0 ==>
                  records == old(records) && revision == old(revision) && events == old(events) && event == None
    {
      var removed: seq<string> := [];
      var retained: seq<Record> := [];
      var list := records;
      for k := 0 to |list|
        invariant removed == TerminalIds(list[..k]) && retained == ActiveTasks(list[..k])
        modifies {}
      {
        TerminalIdsStep(list, k);
        ActiveTasksStep(list, k);
        if list[k].IsTerminal() {
          removed := removed + [list[k].id];
        } else {
          retained := retained + [list[k]];
        }
      }
      assert list[..|list|] == list;
      if removed == [] {
        NothingTerminal(list);
        return 0, None;
      }
      ClearTerminalIsRemove(list);
      records := retained;
      var emitted := NextEvent(Remove(removed), old(records));
      return |removed|, Some(emitted);
    }
  }
}
