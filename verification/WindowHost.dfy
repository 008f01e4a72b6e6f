/** The window host as an object whose fields its event handlers change. One method is one stretch of
    code between awaits; each takes the step of the host that stands for it and keeps the invariant, so
    what is proved of every reachable host holds of the object between its methods. */
module WindowHost {
  import opened Options
  import opened WindowHostModel
  import opened WindowHostSafety

  // What the settled creations are after some more of them are rejected.
  predicate OnlyRejects(before: map<Token, Settlement>, after: map<Token, Settlement>) {
    && before.Keys <= after.Keys
    && forall t :: t in after ==> after[t] == if t in before then before[t] else Rejected
  }

  lemma SameSettled(before: map<Token, Settlement>, a: map<Token, Settlement>, b: map<Token, Settlement>, next: Token)
    requires Once([], map[], map[], a, next) && Once([], map[], map[], b, next)
    requires OnlyRejects(before, a) && OnlyRejects(before, b)
    ensures a == b
  {
    forall t: Token
      ensures t in a <==> t in b
    {
      assert Places([], map[], map[], a, t) == One(t < next);
      assert Places([], map[], map[], b, t) == One(t < next);
    }
  }

  lemma ExitRejects(s: Host, destroyWindows: bool)
    requires !s.shuttingDown
    ensures OnlyRejects(s.settled, Exit(s, destroyWindows).settled)
  {}

  ghost function Ids(records: map<Key, WindowRecord>, keys: set<Key>): set<nat>
    requires keys <= records.Keys
  {
    set k | k in keys :: records[k].id
  }

  lemma OneMoreGone(records: map<Key, WindowRecord>, gone: set<Key>, key: Key)
    requires gone <= records.Keys && key in records - gone
    ensures Ids(records, gone + {key}) == Ids(records, gone) + {records[key].id}
    ensures (records - gone) - {key} == records - (gone + {key})
    ensures |(records - gone) - {key}| < |records - gone|
  {
    assert ((records - gone) - {key}).Keys == (records - gone).Keys - {key};
  }

  lemma FirstSettled(creations: seq<Creation>, settled: map<Token, Settlement>, next: Token)
    requires creations != [] && QueueDistinct(creations) && Once(creations, map[], map[], settled, next)
    ensures creations[0].token !in settled && QueueDistinct(creations[1..])
    ensures Once(creations[1..], map[], map[], settled[creations[0].token := Rejected], next)
  {
    QueuedSettled(creations, map[], map[], settled, next, 0, Rejected);
    assert creations[..0] + creations[1..] == creations[1..];
  }

  class DesktopWindowHost {
    var records: map<Key, WindowRecord>
    var pendingOpenRequests: map<Key, PendingOpen>
    var pendingWindowCreations: seq<Creation>
    var destroyed: set<nat>
    var shuttingDown: bool
    var operationChain: seq<Key>
    var running: Running
    var nextToken: Token
    var nextRecord: nat
    var settled: map<Token, Settlement>
    var settledTwice: set<Token>
    var tokensAtShutdown: Token
    ghost var awaiting: set<Token>

    ghost function View(): Host
      reads this
    {
      Host(records, pendingOpenRequests, pendingWindowCreations, destroyed, shuttingDown, operationChain, running,
           nextToken, nextRecord, settled, settledTwice, tokensAtShutdown, awaiting)
    }

    ghost predicate Valid()
      reads this
    {
      Inv(View())
    }

    constructor ()
      ensures Valid() && View() == START
    {
      records, pendingOpenRequests, pendingWindowCreations := map[], map[], [];
      destroyed, shuttingDown, operationChain, running := {}, false, [], Idle;
      nextToken, nextRecord, settled, settledTwice, tokensAtShutdown, awaiting := 0, 0, map[], {}, 0, {};
      new;
      StartOk();
    }

    method SettleCreation(creation: Option<Token>, how: Settlement)
      modifies this`settled, this`settledTwice
      ensures View() == Settle(old(View()), creation, how)
    {
      if creation.Some? {
        if creation.value in settled {
          settledTwice := settledTwice + {creation.value};
        } else {
          settled := settled[creation.value := how];
        }
      }
    }

    method ForgetRecord(key: Key, destroy: bool)
      requires key in records
      modifies this`records, this`pendingOpenRequests, this`destroyed, this`settled, this`settledTwice
      ensures View() == Forget(old(View()), key, destroy)
    {
      var record := records[key];
      records := records - {key};
      pendingOpenRequests := pendingOpenRequests - {key};
      SettleCreation(record.creation, Rejected);
      if destroy {
        destroyed := destroyed + {record.id};
      }
    }

    // Every creation is in one place, as far as the fields tell.
    ghost predicate Tidy()
      reads this
    {
      && NoSharing(pendingWindowCreations, pendingOpenRequests, records)
      && Once(pendingWindowCreations, pendingOpenRequests, records, settled, nextToken)
      && settledTwice == {}
    }

    // The fields while the windows of `gone` are destroyed and those of the other records are not.
    ghost predicate Destroying(before: map<Key, WindowRecord>, requests: map<Key, PendingOpen>, ended: set<nat>,
                               start: map<Token, Settlement>, gone: set<Key>)
      reads this
    {
      && Tidy() && OnlyRejects(start, settled)
      && pendingOpenRequests == requests && Apart(requests, before)
      && gone <= before.Keys && records == before - gone
      && destroyed == ended + Ids(before, gone)
    }

    method DestroyOne(key: Key, ghost before: map<Key, WindowRecord>, ghost ended: set<nat>,
                      ghost start: map<Token, Settlement>, ghost gone: set<Key>)
      requires Destroying(before, pendingOpenRequests, ended, start, gone) && key in records
      modifies this`records, this`pendingOpenRequests, this`destroyed, this`settled, this`settledTwice
      ensures Destroying(before, old(pendingOpenRequests), ended, start, gone + {key})
      ensures |records| < |old(records)|
    {
      RecordSettled(pendingWindowCreations, pendingOpenRequests, records, settled, nextToken, key, Rejected);
      OneMoreGone(before, gone, key);
      assert pendingOpenRequests - {key} == pendingOpenRequests;
      ForgetRecord(key, true);
    }

    method DestroyAll()
      requires Tidy() && Apart(pendingOpenRequests, records)
      modifies this`records, this`pendingOpenRequests, this`destroyed, this`settled, this`settledTwice
      ensures records == map[] && pendingOpenRequests == old(pendingOpenRequests)
      ensures destroyed == old(destroyed) + Ids(old(records), old(records).Keys)
      ensures Tidy() && OnlyRejects(old(settled), settled)
    {
      ghost var gone := {};
      assert records - gone == records;
      while records.Keys != {}
        invariant Destroying(old(records), old(pendingOpenRequests), old(destroyed), old(settled), gone)
        decreases |records|
      {
        var key :| key in records.Keys;
        DestroyOne(key, old(records), old(destroyed), old(settled), gone);
        gone := gone + {key};
      }
      assert gone == old(records).Keys;
    }

    method RejectRequests()
      requires Tidy() && records == map[]
      modifies this`pendingOpenRequests, this`settled, this`settledTwice
      ensures pendingOpenRequests == map[] && Tidy() && OnlyRejects(old(settled), settled)
    {
      var todo := pendingOpenRequests;
      while todo.Keys != {}
        invariant NoSharing(pendingWindowCreations, todo, records) && OnlyRejects(old(settled), settled)
        invariant Once(pendingWindowCreations, todo, records, settled, nextToken) && settledTwice == {}
        decreases |todo.Keys|
      {
        var key :| key in todo.Keys;
        PendingSettled(pendingWindowCreations, todo, records, settled, nextToken, key, Rejected);
        SettleCreation(todo[key].creation, Rejected);
        assert (todo - {key}).Keys == todo.Keys - {key};
        todo := todo - {key};
      }
      pendingOpenRequests := map[];
      assert pendingOpenRequests == todo;
    }

    method RejectCreations()
      requires Tidy() && records == map[] && pendingOpenRequests == map[]
      modifies this`pendingWindowCreations, this`settled, this`settledTwice
      ensures pendingWindowCreations == [] && settledTwice == {} && OnlyRejects(old(settled), settled)
      ensures Once([], map[], map[], settled, nextToken)
    {
      var creations := pendingWindowCreations;
      pendingWindowCreations := [];
      while creations != []
        invariant pendingWindowCreations == [] && QueueDistinct(creations) && OnlyRejects(old(settled), settled)
        invariant Once(creations, map[], map[], settled, nextToken) && settledTwice == {}
        decreases |creations|
      {
        FirstSettled(creations, settled, nextToken);
        SettleCreation(Some(creations[0].token), Rejected);
        creations := creations[1..];
      }
    }

    method SettleEverything(destroyWindows: bool)
      requires Tidy() && Apart(pendingOpenRequests, records) && (destroyWindows || records == map[])
      modifies this`records, this`pendingOpenRequests, this`pendingWindowCreations, this`destroyed, this`settled,
          this`settledTwice
      ensures records == map[] && pendingOpenRequests == map[] && pendingWindowCreations == [] && settledTwice == {}
      ensures destroyed == old(destroyed) + if destroyWindows then Ids(old(records), old(records).Keys) else {}
      ensures Once([], map[], map[], settled, nextToken) && OnlyRejects(old(settled), settled)
    {
      if destroyWindows {
        DestroyAll();
      }
      RejectRequests();
      RejectCreations();
    }

    method EndDesktop(destroyWindows: bool)
      requires Linear(View()) && Apart(pendingOpenRequests, records) && !shuttingDown
      requires destroyWindows || records == map[]
      modifies this
      ensures View() == Exit(old(View()), destroyWindows)
    {
      ghost var exited := Exit(View(), destroyWindows);
      ExitKeeps(View(), destroyWindows);
      ExitRejects(View(), destroyWindows);
      shuttingDown := true;
      tokensAtShutdown := nextToken;
      SettleEverything(destroyWindows);
      SameSettled(old(settled), settled, exited.settled, nextToken);
      assert destroyed == exited.destroyed;
    }

    method ExitDesktopOnly(destroyWindows: bool)
      requires Valid() && (destroyWindows || records == map[])
      modifies this
      ensures View() == Exit(old(View()), destroyWindows) && Valid() && shuttingDown
      ensures !old(shuttingDown) ==> forall t: Token :: t < nextToken ==> t in settled
    {
      ExitKeepsInv(View(), destroyWindows);
      if shuttingDown { return; }
      EndDesktop(destroyWindows);
      assert pendingWindowCreations == [] && pendingOpenRequests == map[] && records == map[];
      forall t: Token | t < nextToken
        ensures t in settled
      {
        assert Places(pendingWindowCreations, pendingOpenRequests, records, settled, t) == One(t < nextToken);
      }
    }

    /** openWindow, until its activation is answered. */
    method OpenWindow(root: Option<string>) returns (token: Token)
      requires Valid()
      modifies this`pendingWindowCreations, this`nextToken, this`awaiting
      ensures token == old(nextToken) && View() == TakeStep(old(View()), Step.OpenWindow(root)) && Valid()
      ensures InQueue(pendingWindowCreations, token) && token !in settled
    {
      OpenWindowKeeps(View(), root);
      assert Places(pendingWindowCreations, pendingOpenRequests, records, settled, nextToken) == 0;
      token := nextToken;
      pendingWindowCreations := pendingWindowCreations + [Creation(token, root)];
      assert pendingWindowCreations[|pendingWindowCreations| - 1].token == token;
      nextToken := nextToken + 1;
      awaiting := awaiting + {token};
    }

    method ActivationFailed(token: Token)
      requires Valid() && token in awaiting
      modifies this`pendingWindowCreations, this`settled, this`settledTwice, this`awaiting
      ensures View() == TakeStep(old(View()), Step.ActivateFailed(token)) && Valid()
    {
      awaiting := awaiting - {token};
      DropCreationKeeps(View(), token);
      var index := IndexOf(pendingWindowCreations, token);
      if index >= 0 {
        pendingWindowCreations := pendingWindowCreations[..index] + pendingWindowCreations[index + 1..];
        SettleCreation(Some(token), Rejected);
      }
    }

    method ReceiveOpenRequested(key: Key)
      requires Valid()
      modifies this`pendingOpenRequests, this`pendingWindowCreations, this`operationChain
      ensures View() == TakeStep(old(View()), Step.OpenRequested(key)) && Valid()
    {
      RequestOpenKeeps(View(), key);
      if !shuttingDown && key !in records && key !in pendingOpenRequests {
        var creation := None;
        if pendingWindowCreations != [] {
          creation := Some(pendingWindowCreations[0]);
          pendingWindowCreations := pendingWindowCreations[1..];
        }
        pendingOpenRequests := pendingOpenRequests[key :=
          if creation.Some? then PendingOpen(false, creation.value.root, Some(creation.value.token))
          else PendingOpen(false, None, None)];
      }
      operationChain := operationChain + [key];
    }

    /** openRequestedWindow, until its launch ticket is asked for. */
    method StartNext()
      requires running.Idle? && operationChain != []
      modifies this
      ensures View() == TakeStep(old(View()), Step.StartNext) && (old(Valid()) ==> Valid())
    {
      if Valid() {
        StartOpenKeeps(View());
      }
      var key := operationChain[0];
      operationChain := operationChain[1..];
      if shuttingDown { return; }
      if key in records {
        var existing := records[key];
        if existing.id !in destroyed {
          pendingOpenRequests := pendingOpenRequests - {key};
          if existing.phase.Opening? {
            records := records[key := existing.(focusRequested := true)];
          }
          return;
        }
        ForgetRecord(key, false);
      }
      running := AwaitTicket(key);
    }

    /** The catch block of openRequestedWindow with the synchronous part of handleOpenFailure. */
    method HandleOpenFailure(key: Key, id: Option<nat>)
      modifies this
      ensures View() == OpenFailed(old(View()), key, id)
    {
      if shuttingDown || (id.Some? && !(key in records && records[key].id == id.value)) {
        running := Idle;
        return;
      }
      var creation := None;
      if id.Some? {
        creation := records[key].creation;
      }
      if creation.None? && key in pendingOpenRequests {
        creation := pendingOpenRequests[key].creation;
      }
      SettleCreation(creation, Rejected);
      if id.Some? {
        records := records[key := records[key].(creation := None)];
      }
      pendingOpenRequests := pendingOpenRequests - {key};
      if id.Some? {
        ForgetRecord(key, true);
      }
      running := AwaitCleanup(key);
    }

    method TicketArrived(outcome: TicketOutcome)
      requires running.AwaitTicket?
      modifies this
      ensures View() == TakeStep(old(View()), Step.TicketArrived(outcome)) && (old(Valid()) ==> Valid())
    {
      if Valid() {
        AfterTicketKeeps(View(), outcome);
      }
      var key := running.key;
      if outcome.TicketFailed? {
        HandleOpenFailure(key, None);
        return;
      }
      if shuttingDown {
        running := Idle;
        return;
      }
      if outcome.CreateFailed? {
        HandleOpenFailure(key, None);
        return;
      }
      var id := ShowWindow(key);
      if outcome.PresentFailed? {
        HandleOpenFailure(key, Some(id));
      }
    }

    // The window is created and takes the pending request over.
    method ShowWindow(key: Key) returns (id: nat)
      requires running == AwaitTicket(key) && !shuttingDown
      modifies this`pendingOpenRequests, this`nextRecord, this`records, this`running
      ensures View() == AfterTicket(old(View()), Opened) && id == old(nextRecord)
    {
      var request := PendingOpen(false, None, None);
      if key in pendingOpenRequests {
        request := pendingOpenRequests[key];
      }
      pendingOpenRequests := pendingOpenRequests - {key};
      id := nextRecord;
      nextRecord := nextRecord + 1;
      records := records[key := WindowRecord(id, Opening, request.root, request.focusRequested, request.creation)];
      running := AwaitLoad(key, id);
    }

    method LoadSettled(ok: bool)
      requires Valid() && running.AwaitLoad?
      modifies this
      ensures View() == TakeStep(old(View()), Step.LoadSettled(ok)) && Valid()
    {
      AfterLoadKeeps(View(), ok);
      var key, id := running.key, running.id;
      if !ok {
        HandleOpenFailure(key, Some(id));
        return;
      }
      if !(key in records && records[key].id == id) || shuttingDown {
        running := Idle;
        return;
      }
      if id in destroyed {
        HandleOpenFailure(key, Some(id));
        return;
      }
      var record := records[key];
      SettleCreation(record.creation, Resolved(id));
      records := records[key := record.(phase := Live, creation := None)];
      running := Idle;
    }

    method CleanupReturned(ok: bool)
      requires Valid() && running.AwaitCleanup?
      modifies this
      ensures View() == TakeStep(old(View()), Step.CleanupReturned(ok)) && Valid()
    {
      running := Idle;
      if shuttingDown { return; }
      if !ok {
        ExitDesktopOnly(true);
      } else if |records| == 0 {
        EmptyRecords(records);
        ExitDesktopOnly(false);
      }
    }

    method FocusWindow(key: Key)
      requires Valid()
      modifies this`records, this`pendingOpenRequests
      ensures View() == TakeStep(old(View()), Step.FocusRequested(key)) && Valid()
    {
      FocusKeeps(View(), key);
      if shuttingDown { return; }
      if key !in records {
        if key in pendingOpenRequests {
          pendingOpenRequests := pendingOpenRequests[key := pendingOpenRequests[key].(focusRequested := true)];
        }
        return;
      }
      var record := records[key];
      if record.id !in destroyed && record.phase.Opening? {
        records := records[key := record.(focusRequested := true)];
      }
    }

    method HandleWindowClosed(key: Key, id: nat)
      requires Valid()
      modifies this
      ensures View() == TakeStep(old(View()), Step.WindowClosed(key, id)) && Valid()
    {
      if !(key in records && records[key].id == id) { return; }
      ForgetKeepsLinear(View(), key, false);
      ForgetKeepsOrder(View(), key, false);
      ForgetRecord(key, false);
      if shuttingDown { return; }
      if |records| == 0 {
        EmptyRecords(records);
        ExitDesktopOnly(false);
      }
    }
  }
}
