/** Window-creation tokens are linear: at every await each unsettled creation is in exactly one
    place, and each is settled at most once. */
module WindowHostSafety {
  import opened Options
  import opened WindowHostModel

  predicate InQueue(queue: seq<Creation>, t: Token) {
    exists k :: 0 <= k < |queue| && queue[k].token == t
  }

  predicate InPending(pending: map<Key, PendingOpen>, t: Token) {
    exists k :: k in pending && pending[k].creation == Some(t)
  }

  predicate InRecord(records: map<Key, WindowRecord>, t: Token) {
    exists k :: k in records && records[k].creation == Some(t)
  }

  /** The number of places creation `t` is in, being settled counted as one. */
  ghost function Places(queue: seq<Creation>, pending: map<Key, PendingOpen>, records: map<Key, WindowRecord>,
                        settled: map<Token, Settlement>, t: Token): nat
  {
    One(InQueue(queue, t)) + One(InPending(pending, t)) + One(InRecord(records, t)) + One(t in settled)
  }

  /** Every creation made so far is in exactly one place, and no other is in any. */
  ghost predicate Once(queue: seq<Creation>, pending: map<Key, PendingOpen>, records: map<Key, WindowRecord>,
                       settled: map<Token, Settlement>, next: Token)
  {
    forall t: Token :: Places(queue, pending, records, settled, t) == One(t < next)
  }

  ghost predicate QueueDistinct(queue: seq<Creation>) {
    forall i, j :: 0 <= i < j < |queue| ==> queue[i].token != queue[j].token
  }

  ghost predicate PendingDistinct(pending: map<Key, PendingOpen>) {
    forall a, b :: a in pending && b in pending && pending[a].creation.Some?
        && pending[a].creation == pending[b].creation
      ==> a == b
  }

  ghost predicate RecordsDistinct(records: map<Key, WindowRecord>) {
    forall a, b :: a in records && b in records && records[a].creation.Some?
        && records[a].creation == records[b].creation
      ==> a == b
  }

  ghost predicate NoSharing(queue: seq<Creation>, pending: map<Key, PendingOpen>, records: map<Key, WindowRecord>) {
    QueueDistinct(queue) && PendingDistinct(pending) && RecordsDistinct(records)
  }

  ghost predicate Linear(s: Host) {
    && NoSharing(s.queue, s.pending, s.records)
    && Once(s.queue, s.pending, s.records, s.settled, s.nextToken)
    && s.settledTwice == {}
  }

  predicate Apart(pending: map<Key, PendingOpen>, records: map<Key, WindowRecord>) {
    forall k :: k in pending ==> k !in records
  }

  // Each pending request has an operation coming for it.
  predicate Coming(pending: map<Key, PendingOpen>, chain: seq<Key>, running: Running) {
    forall k :: k in pending ==> k in chain || running == AwaitTicket(k)
  }

  // Each opening window is the one whose load is awaited; a live one holds no creation.
  predicate Loading(records: map<Key, WindowRecord>, running: Running) {
    && (forall k :: k in records && records[k].phase.Opening? ==> running == AwaitLoad(k, records[k].id))
    && (forall k :: k in records && records[k].phase.Live? ==> records[k].creation.None?)
  }

  predicate Identified(records: map<Key, WindowRecord>, nextRecord: nat) {
    && (forall k :: k in records ==> records[k].id < nextRecord)
    && (forall a, b :: a in records && b in records && records[a].id == records[b].id ==> a == b)
  }

  predicate Waiting(records: map<Key, WindowRecord>, nextRecord: nat, running: Running) {
    && (running.AwaitTicket? ==> running.key !in records)
    && (running.AwaitLoad? ==> running.id < nextRecord)
  }

  ghost predicate Ordered(s: Host) {
    && Apart(s.pending, s.records)
    && Coming(s.pending, s.chain, s.running)
    && Loading(s.records, s.running)
    && Identified(s.records, s.nextRecord)
    && Waiting(s.records, s.nextRecord, s.running)
  }

  predicate MadeAfter(queue: seq<Creation>, t: Token) {
    forall k :: 0 <= k < |queue| ==> queue[k].token >= t
  }

  ghost predicate ShutDownOk(s: Host) {
    s.shuttingDown ==>
      && s.pending == map[]
      && s.records == map[]
      && s.tokensAtShutdown <= s.nextToken
      && MadeAfter(s.queue, s.tokensAtShutdown)
  }

  ghost predicate Inv(s: Host) {
    Linear(s) && Ordered(s) && ShutDownOk(s)
  }

  // ---------- Where a token goes when a place changes ----------

  lemma RecordRemoved(records: map<Key, WindowRecord>, key: Key, t: Token)
    requires RecordsDistinct(records) && key in records
    ensures InRecord(records - {key}, t) <==> InRecord(records, t) && records[key].creation != Some(t)
  {
    if InRecord(records, t) && records[key].creation != Some(t) {
      var k :| k in records && records[k].creation == Some(t);
      assert k in records - {key} && (records - {key})[k].creation == Some(t);
    }
  }

  lemma PendingRemoved(pending: map<Key, PendingOpen>, key: Key, t: Token)
    requires PendingDistinct(pending) && key in pending
    ensures InPending(pending - {key}, t) <==> InPending(pending, t) && pending[key].creation != Some(t)
  {
    if InPending(pending, t) && pending[key].creation != Some(t) {
      var k :| k in pending && pending[k].creation == Some(t);
      assert k in pending - {key} && (pending - {key})[k].creation == Some(t);
    }
  }

  lemma RecordPut(records: map<Key, WindowRecord>, key: Key, record: WindowRecord, t: Token)
    requires RecordsDistinct(records)
    ensures InRecord(records[key := record], t) <==>
              || record.creation == Some(t)
              || (InRecord(records, t) && !(key in records && records[key].creation == Some(t)))
  {
    var put := records[key := record];
    if record.creation == Some(t) {
      assert key in put && put[key].creation == Some(t);
    }
    if InRecord(records, t) && !(key in records && records[key].creation == Some(t)) {
      var k :| k in records && records[k].creation == Some(t);
      assert k in put && put[k].creation == Some(t);
    }
  }

  lemma PendingPut(pending: map<Key, PendingOpen>, key: Key, request: PendingOpen, t: Token)
    requires PendingDistinct(pending)
    ensures InPending(pending[key := request], t) <==>
              || request.creation == Some(t)
              || (InPending(pending, t) && !(key in pending && pending[key].creation == Some(t)))
  {
    var put := pending[key := request];
    if request.creation == Some(t) {
      assert key in put && put[key].creation == Some(t);
    }
    if InPending(pending, t) && !(key in pending && pending[key].creation == Some(t)) {
      var k :| k in pending && pending[k].creation == Some(t);
      assert k in put && put[k].creation == Some(t);
    }
  }

  lemma QueueCut(queue: seq<Creation>, index: nat, t: Token)
    requires QueueDistinct(queue) && index < |queue|
    ensures QueueDistinct(queue[..index] + queue[index + 1..])
    ensures InQueue(queue[..index] + queue[index + 1..], t) <==> InQueue(queue, t) && queue[index].token != t
  {
    var cut := queue[..index] + queue[index + 1..];
    if InQueue(queue, t) && queue[index].token != t {
      var k :| 0 <= k < |queue| && queue[k].token == t;
      assert cut[if k < index then k else k - 1].token == t;
    }
  }

  lemma QueueGrown(queue: seq<Creation>, creation: Creation, t: Token)
    ensures InQueue(queue + [creation], t) <==> InQueue(queue, t) || creation.token == t
  {
    var grown := queue + [creation];
    if InQueue(queue, t) {
      var k :| 0 <= k < |queue| && queue[k].token == t;
      assert grown[k].token == t;
    }
    assert grown[|queue|] == creation;
  }

  // ---------- One token moves ----------

  lemma CreationQueued(queue: seq<Creation>, pending: map<Key, PendingOpen>, records: map<Key, WindowRecord>,
                       settled: map<Token, Settlement>, next: Token, root: Option<string>)
    requires Once(queue, pending, records, settled, next) && QueueDistinct(queue)
    ensures Once(queue + [Creation(next, root)], pending, records, settled, next + 1)
    ensures QueueDistinct(queue + [Creation(next, root)])
  {
    assert Places(queue, pending, records, settled, next) == 0;
    var grown := queue + [Creation(next, root)];
    forall t: Token
      ensures Places(grown, pending, records, settled, t) == One(t < next + 1)
    {
      assert Places(queue, pending, records, settled, t) == One(t < next);
      QueueGrown(queue, Creation(next, root), t);
    }
    assert forall k :: 0 <= k < |queue| ==> InQueue(queue, queue[k].token);
  }

  lemma QueuedSettled(queue: seq<Creation>, pending: map<Key, PendingOpen>, records: map<Key, WindowRecord>,
                      settled: map<Token, Settlement>, next: Token, index: nat, how: Settlement)
    requires Once(queue, pending, records, settled, next) && QueueDistinct(queue) && index < |queue|
    ensures queue[index].token !in settled
    ensures Once(queue[..index] + queue[index + 1..], pending, records, settled[queue[index].token := how], next)
  {
    var token := queue[index].token;
    assert InQueue(queue, token);
    assert Places(queue, pending, records, settled, token) == One(token < next);
    var cut, after := queue[..index] + queue[index + 1..], settled[token := how];
    forall t: Token
      ensures Places(cut, pending, records, after, t) == One(t < next)
    {
      assert Places(queue, pending, records, settled, t) == One(t < next);
      QueueCut(queue, index, t);
    }
  }

  lemma QueuedBecomesPending(queue: seq<Creation>, pending: map<Key, PendingOpen>, records: map<Key, WindowRecord>,
                             settled: map<Token, Settlement>, next: Token, key: Key, request: PendingOpen)
    requires Once(queue, pending, records, settled, next) && QueueDistinct(queue) && PendingDistinct(pending)
    requires queue != [] && key !in pending && request.creation == Some(queue[0].token)
    ensures Once(queue[1..], pending[key := request], records, settled, next)
    ensures QueueDistinct(queue[1..]) && PendingDistinct(pending[key := request])
  {
    var token := queue[0].token;
    assert queue[..0] + queue[1..] == queue[1..];
    assert InQueue(queue, token);
    assert Places(queue, pending, records, settled, token) == One(token < next);
    assert !InPending(pending, token);
    var rest, put := queue[1..], pending[key := request];
    forall t: Token
      ensures Places(rest, put, records, settled, t) == One(t < next)
    {
      assert Places(queue, pending, records, settled, t) == One(t < next);
      QueueCut(queue, 0, t);
      PendingPut(pending, key, request, t);
    }
  }

  // A request or a record is rewritten without taking or giving a token.
  lemma RequestReplaced(queue: seq<Creation>, pending: map<Key, PendingOpen>, records: map<Key, WindowRecord>,
                        settled: map<Token, Settlement>, next: Token, key: Key, request: PendingOpen)
    requires Once(queue, pending, records, settled, next) && PendingDistinct(pending)
    requires request.creation == if key in pending then pending[key].creation else None
    ensures Once(queue, pending[key := request], records, settled, next) && PendingDistinct(pending[key := request])
  {
    var put := pending[key := request];
    forall t: Token
      ensures Places(queue, put, records, settled, t) == One(t < next)
    {
      assert Places(queue, pending, records, settled, t) == One(t < next);
      PendingPut(pending, key, request, t);
      if key in pending && pending[key].creation == Some(t) {
        assert InPending(pending, t);
      }
    }
  }

  lemma RecordReplaced(queue: seq<Creation>, pending: map<Key, PendingOpen>, records: map<Key, WindowRecord>,
                       settled: map<Token, Settlement>, next: Token, key: Key, record: WindowRecord)
    requires Once(queue, pending, records, settled, next) && RecordsDistinct(records)
    requires key in records && record.creation == records[key].creation
    ensures Once(queue, pending, records[key := record], settled, next) && RecordsDistinct(records[key := record])
  {
    var put := records[key := record];
    forall t: Token
      ensures Places(queue, pending, put, settled, t) == One(t < next)
    {
      assert Places(queue, pending, records, settled, t) == One(t < next);
      RecordPut(records, key, record, t);
      if records[key].creation == Some(t) {
        assert InRecord(records, t);
      }
    }
  }

  lemma PendingBecomesRecord(queue: seq<Creation>, pending: map<Key, PendingOpen>, records: map<Key, WindowRecord>,
                             settled: map<Token, Settlement>, next: Token, key: Key, record: WindowRecord)
    requires Once(queue, pending, records, settled, next) && PendingDistinct(pending) && RecordsDistinct(records)
    requires key !in records && record.creation == if key in pending then pending[key].creation else None
    ensures Once(queue, pending - {key}, records[key := record], settled, next)
    ensures PendingDistinct(pending - {key}) && RecordsDistinct(records[key := record])
  {
    forall a | a in records && records[a].creation.Some?
      ensures records[a].creation != record.creation
    {
      var token := records[a].creation.value;
      assert InRecord(records, token);
      assert Places(queue, pending, records, settled, token) == One(token < next);
      assert record.creation == Some(token) ==> InPending(pending, token);
    }
    var left, put := pending - {key}, records[key := record];
    forall t: Token
      ensures Places(queue, left, put, settled, t) == One(t < next)
    {
      assert Places(queue, pending, records, settled, t) == One(t < next);
      RecordPut(records, key, record, t);
      if key in pending {
        PendingRemoved(pending, key, t);
        assert pending[key].creation == Some(t) ==> InPending(pending, t);
      } else {
        assert pending - {key} == pending;
      }
    }
  }

  lemma PendingSettled(queue: seq<Creation>, pending: map<Key, PendingOpen>, records: map<Key, WindowRecord>,
                       settled: map<Token, Settlement>, next: Token, key: Key, how: Settlement)
    requires Once(queue, pending, records, settled, next) && PendingDistinct(pending) && key in pending
    ensures PendingDistinct(pending - {key})
    ensures pending[key].creation.None? ==> Once(queue, pending - {key}, records, settled, next)
    ensures pending[key].creation.Some? ==>
              && pending[key].creation.value !in settled
              && Once(queue, pending - {key}, records, settled[pending[key].creation.value := how], next)
  {
    var creation := pending[key].creation;
    var after := if creation.Some? then settled[creation.value := how] else settled;
    if creation.Some? {
      assert InPending(pending, creation.value);
      assert Places(queue, pending, records, settled, creation.value) == One(creation.value < next);
    }
    forall t: Token
      ensures Places(queue, pending - {key}, records, after, t) == One(t < next)
    {
      assert Places(queue, pending, records, settled, t) == One(t < next);
      PendingRemoved(pending, key, t);
    }
  }

  lemma RecordSettled(queue: seq<Creation>, pending: map<Key, PendingOpen>, records: map<Key, WindowRecord>,
                      settled: map<Token, Settlement>, next: Token, key: Key, how: Settlement)
    requires Once(queue, pending, records, settled, next) && RecordsDistinct(records) && key in records
    ensures RecordsDistinct(records - {key})
    ensures records[key].creation.None? ==> Once(queue, pending, records - {key}, settled, next)
    ensures records[key].creation.Some? ==>
              && records[key].creation.value !in settled
              && Once(queue, pending, records - {key}, settled[records[key].creation.value := how], next)
  {
    var creation := records[key].creation;
    var after := if creation.Some? then settled[creation.value := how] else settled;
    if creation.Some? {
      assert InRecord(records, creation.value);
      assert Places(queue, pending, records, settled, creation.value) == One(creation.value < next);
    }
    forall t: Token
      ensures Places(queue, pending, records - {key}, after, t) == One(t < next)
    {
      assert Places(queue, pending, records, settled, t) == One(t < next);
      RecordRemoved(records, key, t);
    }
  }

  // The record stays, its creation is settled and dropped.
  lemma RecordKeptSettled(queue: seq<Creation>, pending: map<Key, PendingOpen>, records: map<Key, WindowRecord>,
                          settled: map<Token, Settlement>, next: Token, key: Key, record: WindowRecord, how: Settlement)
    requires Once(queue, pending, records, settled, next) && RecordsDistinct(records)
    requires key in records && record.creation.None?
    ensures RecordsDistinct(records[key := record])
    ensures records[key].creation.None? ==> Once(queue, pending, records[key := record], settled, next)
    ensures records[key].creation.Some? ==>
              && records[key].creation.value !in settled
              && Once(queue, pending, records[key := record], settled[records[key].creation.value := how], next)
  {
    RecordSettled(queue, pending, records, settled, next, key, how);
    var creation := records[key].creation;
    var after := if creation.Some? then settled[creation.value := how] else settled;
    assert (records - {key})[key := record] == records[key := record];
    var put := records[key := record];
    forall t: Token
      ensures Places(queue, pending, put, after, t) == One(t < next)
    {
      assert Places(queue, pending, records - {key}, after, t) == One(t < next);
      RecordPut(records - {key}, key, record, t);
    }
  }

  // ---------- The steps ----------

  lemma ForgetKeepsLinear(s: Host, key: Key, destroy: bool)
    requires Linear(s) && key in s.records && key !in s.pending
    ensures Linear(Forget(s, key, destroy))
  {
    assert s.pending - {key} == s.pending;
    RecordSettled(s.queue, s.pending, s.records, s.settled, s.nextToken, key, Rejected);
  }

  lemma ForgetKeepsOrder(s: Host, key: Key, destroy: bool)
    requires Ordered(s) && key in s.records
    ensures Ordered(Forget(s, key, destroy))
  {}

  lemma OpenWindowKeeps(s: Host, root: Option<string>)
    requires Inv(s)
    ensures Inv(TakeStep(s, OpenWindow(root)))
  {
    CreationQueued(s.queue, s.pending, s.records, s.settled, s.nextToken, root);
  }

  lemma DropCreationKeeps(s: Host, token: Token)
    requires Inv(s)
    ensures Inv(DropCreation(s, token))
  {
    var index := IndexOf(s.queue, token);
    if index >= 0 {
      QueueCut(s.queue, index, token);
      QueuedSettled(s.queue, s.pending, s.records, s.settled, s.nextToken, index, Rejected);
    }
  }

  lemma RequestOpenKeeps(s: Host, key: Key)
    requires Inv(s)
    ensures Inv(RequestOpen(s, key))
  {
    if !(s.shuttingDown || key in s.records || key in s.pending) {
      if s.queue == [] {
        RequestReplaced(s.queue, s.pending, s.records, s.settled, s.nextToken, key, PendingOpen(false, None, None));
      } else {
        var creation := s.queue[0];
        QueuedBecomesPending(s.queue, s.pending, s.records, s.settled, s.nextToken, key,
                             PendingOpen(false, creation.root, Some(creation.token)));
      }
    }
  }

  lemma SettleAllFresh(s: Host, tokens: set<Token>)
    requires s.settledTwice == {} && forall t :: t in tokens ==> t !in s.settled
    ensures SettleAll(s, tokens) == s.(settled := SettleAll(s, tokens).settled)
    ensures SettleAll(s, tokens).settled.Keys == s.settled.Keys + tokens
  {}

  lemma TokenSets(queue: seq<Creation>, pending: map<Key, PendingOpen>, records: map<Key, WindowRecord>, t: Token)
    ensures t in RecordTokens(records) <==> InRecord(records, t)
    ensures t in PendingTokens(pending) <==> InPending(pending, t)
    ensures t in QueueTokens(queue) <==> InQueue(queue, t)
  {
    if InQueue(queue, t) {
      var k :| 0 <= k < |queue| && queue[k].token == t;
      assert queue[k] in queue;
    }
  }

  lemma TokensApart(s: Host, t: Token)
    requires Linear(s)
    ensures t in RecordTokens(s.records) ==> t !in s.settled
    ensures t in PendingTokens(s.pending) ==> t !in s.settled && t !in RecordTokens(s.records)
    ensures t in QueueTokens(s.queue) ==>
                t !in s.settled && t !in RecordTokens(s.records) && t !in PendingTokens(s.pending)
    ensures t < s.nextToken <==>
              t in s.settled || t in RecordTokens(s.records) || t in PendingTokens(s.pending)
                  || t in QueueTokens(s.queue)
  {
    TokenSets(s.queue, s.pending, s.records, t);
    assert Places(s.queue, s.pending, s.records, s.settled, t) == One(t < s.nextToken);
  }

  lemma AllSettledOnce(settled: map<Token, Settlement>, next: Token)
    requires forall t: Token :: t in settled.Keys <==> t < next
    ensures Once([], map[], map[], settled, next)
  {
    forall t: Token
      ensures Places([], map[], map[], settled, t) == One(t < next)
    {
      assert t in settled <==> t in settled.Keys;
    }
  }

  /** Ending the Desktop settles every creation made so far, each once, wherever it was. */
  lemma ExitKeeps(s: Host, destroyWindows: bool)
    requires Linear(s) && Apart(s.pending, s.records) && !s.shuttingDown && (destroyWindows || s.records == map[])
    ensures Exit(s, destroyWindows) ==
              s.(shuttingDown := true, records := map[], pending := map[], queue := [], tokensAtShutdown := s.nextToken,
                 destroyed := Exit(s, destroyWindows).destroyed, settled := Exit(s, destroyWindows).settled)
    ensures Once([], map[], map[], Exit(s, destroyWindows).settled, s.nextToken)
  {
    var n := Exit(s, destroyWindows);
    var forgotten := if destroyWindows then RecordTokens(s.records) else {};
    var requested := PendingTokens(s.pending);
    var queued := QueueTokens(s.queue);
    assert s.pending - s.records.Keys == s.pending;
    assert s.records == map[] ==> RecordTokens(s.records) == {};
    forall t: Token
      ensures t in forgotten ==> t !in s.settled
      ensures t in requested ==> t !in s.settled && t !in forgotten
      ensures t in queued ==> t !in s.settled && t !in forgotten && t !in requested
      ensures t < s.nextToken <==> t in s.settled || t in forgotten || t in requested || t in queued
    {
      TokensApart(s, t);
    }
    var cleared := s.(shuttingDown := true, records := map[], pending := map[], queue := [],
                      tokensAtShutdown := s.nextToken, destroyed := n.destroyed);
    SettleAllFresh(cleared, forgotten);
    var first := SettleAll(cleared, forgotten);
    SettleAllFresh(first, requested);
    var second := SettleAll(first, requested);
    SettleAllFresh(second, queued);
    assert n == SettleAll(second, queued);
    AllSettledOnce(n.settled, s.nextToken);
  }

  lemma ExitKeepsInv(s: Host, destroyWindows: bool)
    requires Inv(s) && (destroyWindows || s.records == map[])
    ensures Inv(Exit(s, destroyWindows))
  {
    if !s.shuttingDown {
      ExitKeeps(s, destroyWindows);
    }
  }

  lemma OpenFailedIsForget(s: Host, key: Key, id: nat)
    requires !s.shuttingDown && IsCurrent(s, key, id) && key !in s.pending
    ensures OpenFailed(s, key, Some(id)) == Forget(s, key, true).(running := AwaitCleanup(key))
  {
    assert s.pending - {key} == s.pending;
    assert s.records[key := s.records[key].(creation := None)] - {key} == s.records - {key};
  }

  lemma RecordFailedKeeps(s: Host, key: Key, id: nat)
    requires Inv(s) && s.running == AwaitLoad(key, id) && !s.shuttingDown && IsCurrent(s, key, id)
    ensures Inv(OpenFailed(s, key, Some(id)))
  {
    OpenFailedIsForget(s, key, id);
    ForgetKeepsLinear(s, key, true);
    ForgetKeepsOrder(s, key, true);
  }

  lemma TicketFailedKeeps(s: Host, key: Key)
    requires Inv(s) && s.running == AwaitTicket(key) && !s.shuttingDown
    ensures Inv(OpenFailed(s, key, None))
  {
    if key in s.pending {
      PendingSettled(s.queue, s.pending, s.records, s.settled, s.nextToken, key, Rejected);
    } else {
      assert s.pending - {key} == s.pending;
    }
  }

  lemma StartOpenKeeps(s: Host)
    requires Inv(s) && s.running.Idle? && s.chain != []
    ensures Inv(StartOpen(s))
  {
    var key := s.chain[0];
    if !s.shuttingDown && key in s.records {
      assert s.pending - {key} == s.pending;
      if s.records[key].id in s.destroyed {
        var popped := s.(chain := s.chain[1..]);
        ForgetKeepsLinear(popped, key, false);
      }
    }
  }

  // The window is created: its creation moves from the pending request to the record.
  lemma ShowKeeps(s: Host)
    requires Inv(s) && s.running.AwaitTicket? && !s.shuttingDown
    ensures Inv(AfterTicket(s, Opened))
  {
    var key := s.running.key;
    PendingBecomesRecord(s.queue, s.pending, s.records, s.settled, s.nextToken, key,
        AfterTicket(s, Opened).records[key]);
  }

  lemma AfterTicketKeeps(s: Host, outcome: TicketOutcome)
    requires Inv(s) && s.running.AwaitTicket?
    ensures Inv(AfterTicket(s, outcome))
  {
    var key := s.running.key;
    if !s.shuttingDown {
      if outcome.TicketFailed? || outcome.CreateFailed? {
        TicketFailedKeeps(s, key);
      } else {
        ShowKeeps(s);
        if outcome.PresentFailed? {
          RecordFailedKeeps(AfterTicket(s, Opened), key, s.nextRecord);
        }
      }
    }
  }

  lemma AfterLoadKeeps(s: Host, ok: bool)
    requires Inv(s) && s.running.AwaitLoad?
    ensures Inv(AfterLoad(s, ok))
  {
    var key, id := s.running.key, s.running.id;
    if !s.shuttingDown && IsCurrent(s, key, id) {
      if !ok || id in s.destroyed {
        RecordFailedKeeps(s, key, id);
      } else {
        LoadedKeeps(s);
      }
    }
  }

  lemma LoadedKeeps(s: Host)
    requires Inv(s) && s.running.AwaitLoad? && !s.shuttingDown
    requires IsCurrent(s, s.running.key, s.running.id) && s.running.id !in s.destroyed
    ensures Inv(AfterLoad(s, true))
  {
    var key := s.running.key;
    var record := s.records[key].(phase := Live, creation := None);
    RecordKeptSettled(s.queue, s.pending, s.records, s.settled, s.nextToken, key, record, Resolved(s.running.id));
  }

  lemma FocusKeeps(s: Host, key: Key)
    requires Inv(s)
    ensures Inv(Focus(s, key))
  {
    if !s.shuttingDown {
      if key in s.records {
        RecordReplaced(s.queue, s.pending, s.records, s.settled, s.nextToken, key,
            s.records[key].(focusRequested := true));
      } else if key in s.pending {
        RequestReplaced(s.queue, s.pending, s.records, s.settled, s.nextToken, key,
            s.pending[key].(focusRequested := true));
      }
    }
  }

  lemma EmptyRecords(records: map<Key, WindowRecord>)
    requires |records| == 0
    ensures records == map[]
  {}

  lemma AfterCleanupKeeps(s: Host, ok: bool)
    requires Inv(s) && s.running.AwaitCleanup?
    ensures Inv(AfterCleanup(s, ok))
  {
    var done := s.(running := Idle);
    if !s.shuttingDown {
      if |s.records| == 0 {
        EmptyRecords(s.records);
        ExitKeepsInv(done, false);
      }
      ExitKeepsInv(done, true);
    }
  }

  lemma ClosedKeeps(s: Host, key: Key, id: nat)
    requires Inv(s)
    ensures Inv(Closed(s, key, id))
  {
    if IsCurrent(s, key, id) {
      ForgetKeepsLinear(s, key, false);
      ForgetKeepsOrder(s, key, false);
      var forgotten := Forget(s, key, false);
      assert forgotten.shuttingDown == s.shuttingDown;
      if !s.shuttingDown && |forgotten.records| == 0 {
        EmptyRecords(forgotten.records);
        ExitKeepsInv(forgotten, false);
      }
    }
  }

  lemma StepKeepsInv(s: Host, step: Step)
    requires Inv(s) && CanStep(s, step)
    ensures Inv(TakeStep(s, step))
  {
    match step
    case OpenWindow(root) => OpenWindowKeeps(s, root);
    case Activated(_) =>
    case ActivateFailed(token) => DropCreationKeeps(s.(awaiting := s.awaiting - {token}), token);
    case OpenRequested(key) => RequestOpenKeeps(s, key);
    case StartNext => StartOpenKeeps(s);
    case TicketArrived(outcome) => AfterTicketKeeps(s, outcome);
    case LoadSettled(ok) => AfterLoadKeeps(s, ok);
    case CleanupReturned(ok) => AfterCleanupKeeps(s, ok);
    case FocusRequested(key) => FocusKeeps(s, key);
    case WindowDestroyed(key) =>
    case WindowClosed(key, id) => ClosedKeeps(s, key, id);
    case ReportFailed => ExitKeepsInv(s, true);
    case ProductEnding => ExitKeepsInv(s, true);
  }

  lemma StartOk()
    ensures Inv(START)
  {
    AllSettledOnce(map[], 0);
  }

  lemma {:induction false} RunKeepsInv(run: seq<Host>, steps: seq<Step>, k: nat)
    requires IsRun(run, steps) && k < |run|
    ensures Inv(run[k])
  {
    if k == 0 {
      StartOk();
    } else {
      RunKeepsInv(run, steps, k - 1);
      StepKeepsInv(run[k - 1], steps[k - 1]);
    }
  }

  lemma ReachableInv(s: Host)
    requires Reachable(s)
    ensures Inv(s)
  {
    var run: seq<Host>, steps: seq<Step> :| IsRun(run, steps) && run[|run| - 1] == s;
    RunKeepsInv(run, steps, |run| - 1);
  }

  // ---------- The main results ----------

  /** At every await, a creation that was made is in exactly one of: the creation queue, a pending
      open request, a window record, the settled ones. No settlement is ever attempted twice. */
  lemma CreationsAreLinear(s: Host, t: Token)
    requires Reachable(s)
    ensures One(InQueue(s.queue, t)) + One(InPending(s.pending, t)) + One(InRecord(s.records, t)) + One(t in s.settled)
         == One(t < s.nextToken)
    ensures NoSharing(s.queue, s.pending, s.records) && s.settledTwice == {}
  {
    ReachableInv(s);
    assert Places(s.queue, s.pending, s.records, s.settled, t) == One(t < s.nextToken);
  }

  /** No key is both requested and open; a pending request always has an operation coming for it, and
      a record that still holds a creation is the one whose page load is awaited. */
  lemma NoCreationIsForgotten(s: Host, key: Key)
    requires Reachable(s)
    ensures key in s.pending ==> key !in s.records && (key in s.chain || s.running == AwaitTicket(key))
    ensures key in s.records && s.records[key].creation.Some? ==> s.running == AwaitLoad(key, s.records[key].id)
  {
    ReachableInv(s);
  }

  /** With no open operation running or waiting, a creation is unsettled exactly when it still waits in
      the queue for an open request: none is left behind in a request or a record. */
  lemma QuietCreations(s: Host, t: Token)
    requires Reachable(s) && s.running.Idle? && s.chain == [] && t < s.nextToken
    ensures t !in s.settled <==> InQueue(s.queue, t)
  {
    ReachableInv(s);
    assert Places(s.queue, s.pending, s.records, s.settled, t) == One(t < s.nextToken);
  }

  /** Once the Desktop is shutting down, every creation made before that is settled. */
  lemma ShutdownSettlesAll(s: Host, t: Token)
    requires Reachable(s) && s.shuttingDown && t < s.tokensAtShutdown
    ensures t in s.settled && s.pending == map[] && s.records == map[]
  {
    ReachableInv(s);
    assert Places(s.queue, s.pending, s.records, s.settled, t) == One(t < s.nextToken);
  }

  // ---------- Creations made after a shutdown ----------

  /** A creation made after the shutdown, and with it the close of the channel: while its activation is
      not answered it waits in the queue, and then it is rejected. */
  ghost predicate LateOk(s: Host) {
    && (forall t :: t in s.awaiting ==> t < s.nextToken)
    && (s.shuttingDown ==> forall t: Token :: s.tokensAtShutdown <= t < s.nextToken ==> LateCreationOk(s, t))
  }

  predicate LateCreationOk(s: Host, t: Token) {
    if t in s.awaiting then InQueue(s.queue, t) else t in s.settled && s.settled[t] == Rejected
  }

  lemma OpenWindowKeepsLate(s: Host, root: Option<string>)
    requires Inv(s) && LateOk(s)
    ensures LateOk(TakeStep(s, OpenWindow(root)))
  {
    var n := TakeStep(s, OpenWindow(root));
    assert n.queue[|s.queue|].token == s.nextToken;
    forall t: Token | s.shuttingDown && s.tokensAtShutdown <= t < n.nextToken
      ensures LateCreationOk(n, t)
    {
      if t < s.nextToken {
        assert LateCreationOk(s, t);
        StaysQueued(s.queue, Creation(s.nextToken, root), t);
      }
    }
  }

  lemma StaysQueued(queue: seq<Creation>, creation: Creation, t: Token)
    ensures InQueue(queue, t) ==> InQueue(queue + [creation], t)
  {
    if InQueue(queue, t) {
      var k :| 0 <= k < |queue| && queue[k].token == t;
      assert (queue + [creation])[k].token == t;
    }
  }

  lemma StaysQueuedWithout(queue: seq<Creation>, index: nat, t: Token)
    requires index < |queue| && queue[index].token != t
    ensures InQueue(queue, t) ==> InQueue(queue[..index] + queue[index + 1..], t)
  {
    if InQueue(queue, t) {
      var k :| 0 <= k < |queue| && queue[k].token == t;
      assert (queue[..index] + queue[index + 1..])[if k < index then k else k - 1].token == t;
    }
  }

  lemma RefusalRejects(s: Host, token: Token)
    requires Linear(s) && InQueue(s.queue, token)
    ensures var n := DropCreation(s, token); token in n.settled && n.settled[token] == Rejected
  {
    assert Places(s.queue, s.pending, s.records, s.settled, token) <= 1;
  }

  lemma RefusalKeepsOthers(s: Host, token: Token, t: Token)
    requires t != token
    ensures var n := DropCreation(s, token);
            && (InQueue(s.queue, t) ==> InQueue(n.queue, t))
            && (t in s.settled ==> t in n.settled && n.settled[t] == s.settled[t])
  {
    var index := IndexOf(s.queue, token);
    if index >= 0 {
      StaysQueuedWithout(s.queue, index, t);
    }
  }

  lemma ActivateFailedKeepsLate(s: Host, token: Token)
    requires Linear(s) && LateOk(s) && token in s.awaiting
    ensures LateOk(TakeStep(s, ActivateFailed(token)))
  {
    var answered := s.(awaiting := s.awaiting - {token});
    forall t: Token | s.shuttingDown && s.tokensAtShutdown <= t < s.nextToken
      ensures LateCreationOk(DropCreation(answered, token), t)
    {
      assert LateCreationOk(s, t);
      if t == token {
        RefusalRejects(answered, token);
      } else {
        RefusalKeepsOthers(answered, token, t);
      }
    }
  }

  // A step that no creation made after the shutdown takes part in.
  predicate LeavesCreations(s: Host, n: Host) {
    && n.awaiting == s.awaiting && n.nextToken == s.nextToken
    && if s.shuttingDown then
         n.shuttingDown && n.tokensAtShutdown == s.tokensAtShutdown && n.queue == s.queue && n.settled == s.settled
       else
         n.shuttingDown ==> n.tokensAtShutdown == s.nextToken
  }

  lemma LeftAloneIsLate(s: Host, n: Host)
    requires LateOk(s) && LeavesCreations(s, n)
    ensures LateOk(n)
  {
    forall t: Token | s.shuttingDown && s.tokensAtShutdown <= t < s.nextToken
      ensures LateCreationOk(n, t)
    {
      assert LateCreationOk(s, t);
    }
  }

  lemma OpenFailedLeaves(s: Host, key: Key, id: Option<nat>)
    ensures LeavesCreations(s, OpenFailed(s, key, id))
  {}

  lemma StartOpenLeaves(s: Host)
    requires s.chain != []
    ensures LeavesCreations(s, StartOpen(s))
  {}

  lemma AfterTicketLeaves(s: Host, outcome: TicketOutcome)
    requires s.running.AwaitTicket?
    ensures LeavesCreations(s, AfterTicket(s, outcome))
  {
    var key := s.running.key;
    if outcome.TicketFailed? || outcome.CreateFailed? {
      OpenFailedLeaves(s, key, None);
    } else if outcome.PresentFailed? && !s.shuttingDown {
      OpenFailedLeaves(AfterTicket(s, Opened), key, Some(s.nextRecord));
    }
  }

  lemma AfterLoadLeaves(s: Host, ok: bool)
    requires s.running.AwaitLoad?
    ensures LeavesCreations(s, AfterLoad(s, ok))
  {
    OpenFailedLeaves(s, s.running.key, Some(s.running.id));
  }

  lemma ExitLeaves(s: Host, destroyWindows: bool)
    ensures LeavesCreations(s, Exit(s, destroyWindows))
  {}

  lemma ForgetLeaves(s: Host, key: Key, destroy: bool)
    requires key in s.records && !s.shuttingDown
    ensures LeavesCreations(s, Forget(s, key, destroy)) && !Forget(s, key, destroy).shuttingDown
  {}

  lemma AfterCleanupLeaves(s: Host, ok: bool)
    ensures LeavesCreations(s, AfterCleanup(s, ok))
  {
    ExitLeaves(s.(running := Idle), !ok);
  }

  lemma ClosedLeaves(s: Host, key: Key, id: nat)
    requires ShutDownOk(s)
    ensures LeavesCreations(s, Closed(s, key, id))
  {
    if IsCurrent(s, key, id) {
      ForgetLeaves(s, key, false);
      ExitLeaves(Forget(s, key, false), false);
    }
  }

  lemma OtherStepLeavesCreations(s: Host, step: Step)
    requires ShutDownOk(s) && CanStep(s, step) && !step.OpenWindow? && !step.Activated? && !step.ActivateFailed?
    ensures LeavesCreations(s, TakeStep(s, step))
  {
    match step
    case StartNext => StartOpenLeaves(s);
    case TicketArrived(outcome) => AfterTicketLeaves(s, outcome);
    case LoadSettled(ok) => AfterLoadLeaves(s, ok);
    case WindowClosed(key, id) => ClosedLeaves(s, key, id);
    case CleanupReturned(ok) => AfterCleanupLeaves(s, ok);
    case ReportFailed => ExitLeaves(s, true);
    case ProductEnding => ExitLeaves(s, true);
    case _ =>
  }

  lemma StepKeepsLate(s: Host, step: Step)
    requires Inv(s) && LateOk(s) && CanStep(s, step)
    ensures LateOk(TakeStep(s, step))
  {
    match step
    case OpenWindow(root) => OpenWindowKeepsLate(s, root);
    case Activated(token) => ActivatedKeepsLate(s, token);
    case ActivateFailed(token) => ActivateFailedKeepsLate(s, token);
    case _ =>
      OtherStepLeavesCreations(s, step);
      LeftAloneIsLate(s, TakeStep(s, step));
  }

  lemma ActivatedKeepsLate(s: Host, token: Token)
    requires LateOk(s) && CanStep(s, Activated(token))
    ensures LateOk(TakeStep(s, Activated(token)))
  {
    var n := TakeStep(s, Activated(token));
    forall t: Token | s.shuttingDown && s.tokensAtShutdown <= t < s.nextToken
      ensures LateCreationOk(n, t)
    {
      assert LateCreationOk(s, t);
    }
  }

  lemma {:induction false} RunKeepsLate(run: seq<Host>, steps: seq<Step>, k: nat)
    requires IsRun(run, steps) && k < |run|
    ensures LateOk(run[k])
  {
    if k == 0 {
    } else {
      RunKeepsLate(run, steps, k - 1);
      RunKeepsInv(run, steps, k - 1);
      StepKeepsLate(run[k - 1], steps[k - 1]);
    }
  }

  /** Nobody waits for ever for a window asked for after the shutdown: once its activation is answered,
      the creation is rejected. Until then it is queued, the answer can only be a refusal, and that refusal
      is a step that rejects it. */
  lemma LateCreationIsRejected(s: Host, t: Token)
    requires Reachable(s) && s.shuttingDown && s.tokensAtShutdown <= t < s.nextToken
    ensures t !in s.awaiting ==> t in s.settled && s.settled[t] == Rejected
    ensures t in s.awaiting ==> InQueue(s.queue, t) && t !in s.settled
    ensures !CanStep(s, Activated(t)) && (CanStep(s, ActivateFailed(t)) <==> t in s.awaiting)
    ensures t in s.awaiting ==>
              var n := TakeStep(s, ActivateFailed(t)); t in n.settled && n.settled[t] == Rejected
  {
    var run: seq<Host>, steps: seq<Step> :| IsRun(run, steps) && run[|run| - 1] == s;
    RunKeepsLate(run, steps, |run| - 1);
    RunKeepsInv(run, steps, |run| - 1);
    assert LateCreationOk(s, t);
    assert Places(s.queue, s.pending, s.records, s.settled, t) == 1;
  }

  /** And nothing but that refusal settles it. */
  lemma LateCreationWaits(s: Host, t: Token, step: Step)
    requires Reachable(s) && s.shuttingDown && s.tokensAtShutdown <= t < s.nextToken && t !in s.settled
    requires CanStep(s, step)
    ensures t in TakeStep(s, step).settled <==> step == ActivateFailed(t)
  {
    LateCreationIsRejected(s, t);
    ReachableInv(s);
    match step
    case OpenWindow(_) =>
    case Activated(_) =>
    case ActivateFailed(token) =>
    case _ => OtherStepLeavesCreations(s, step);
  }
}
