/** Sending selected Photoshop layers to a Project: capture to staged files, upload, settlement, report
    and cleanup. What Photoshop, the file system and the connection do is an input at each await. */
module ExportPipeline {
  import opened Flattening
  import opened Options

  const PHOTOSHOP_MAX_FILE_BYTES: nat := 268435456
  const PHOTOSHOP_MAX_BATCH_BYTES: nat := 1073741824
  const PHOTOSHOP_MAX_BATCH_ITEMS: nat := 50

  type ItemId = string
  type File = nat

  datatype Staging = CreateFailed | WriteFailed | Written

  // Reading the pixels of one item and encoding them, then writing the PNG to a temporary file.
  datatype Attempt = Unreadable | Encoded(byteLength: nat, staging: Staging)

  datatype Capture = Captured(itemId: ItemId, file: File, byteLength: nat) | NotCaptured(itemId: ItemId)

  datatype Modal = NoDocument | Rejected | Completed

  datatype Upload =
    | ReadBackFailed | Uploaded(fileName: string) | OutcomeUnknown | TransferRejected | SessionLost
    | Thrown(live: bool)

  datatype Settlement =
    | Committed(itemId: ItemId, fileName: string)
    | Failed(itemId: ItemId)
    | Unknown(itemId: ItemId)
    | NotAttempted(itemId: ItemId)

  datatype FinishItem = FinishItem(itemId: ItemId, fileName: Option<string>)

  // ---------- What is captured ----------

  function NoneCaptured(items: seq<ItemId>): (r: seq<Capture>)
    ensures |r| == |items| && forall k :: 0 <= k < |items| ==> r[k] == NotCaptured(items[k])
  {
    seq(|items|, k requires 0 <= k < |items| => NotCaptured(items[k]))
  }

  // What is captured of one item, and what is staged and created after it.
  datatype Taken = Taken(capture: Capture, aggregate: nat, next: File) | Full

  function Take(item: ItemId, attempt: Attempt, aggregate: nat, next: File): Taken {
    if attempt.Unreadable? || attempt.byteLength > PHOTOSHOP_MAX_FILE_BYTES
        then Taken(NotCaptured(item), aggregate, next)
    else if aggregate + attempt.byteLength > PHOTOSHOP_MAX_BATCH_BYTES then Full
    else
      match attempt.staging
      case CreateFailed => Taken(NotCaptured(item), aggregate, next)
      case WriteFailed => Taken(NotCaptured(item), aggregate, next + 1)
      case Written => Taken(Captured(item, next, attempt.byteLength), aggregate + attempt.byteLength, next + 1)
  }

  function Captures(items: seq<ItemId>, attempts: seq<Attempt>, aggregate: nat, next: File): seq<Capture>
    requires |attempts| == |items|
  {
    if items == [] then []
    else
      match Take(items[0], attempts[0], aggregate, next)
      case Taken(capture, total, after) => [capture] + Captures(items[1..], attempts[1..], total, after)
      case Full => NoneCaptured(items)
  }

  function FileOf(capture: Capture): seq<File> {
    if capture.Captured? then [capture.file] else []
  }

  function Files(captures: seq<Capture>): seq<File> {
    if captures == [] then [] else FileOf(captures[0]) + Files(captures[1..])
  }

  function Bytes(captures: seq<Capture>): nat {
    if captures == [] then 0
    else (if captures[0].Captured? then captures[0].byteLength else 0) + Bytes(captures[1..])
  }

  lemma {:induction false} FilesConcat(a: seq<Capture>, b: seq<Capture>)
    ensures Files(a + b) == Files(a) + Files(b)
  {
    if a == [] {
      assert a + b == b;
    } else {
      assert (a + b)[1..] == a[1..] + b;
      FilesConcat(a[1..], b);
      Regroup(FileOf(a[0]), Files(a[1..]), Files(b));
    }
  }

  lemma {:induction false} NoneHasNoFiles(items: seq<ItemId>)
    ensures Files(NoneCaptured(items)) == [] && Bytes(NoneCaptured(items)) == 0
  {
    if items == [] {
    } else {
      NoneHasNoFiles(items[1..]);
      assert NoneCaptured(items)[1..] == NoneCaptured(items[1..]);
    }
  }

  /** One capture per item, in order; no file over its limit, and all of them within the batch limit. */
  lemma {:induction false} CapturesAreBounded(items: seq<ItemId>, attempts: seq<Attempt>, aggregate: nat, next: File)
    requires |attempts| == |items| && aggregate <= PHOTOSHOP_MAX_BATCH_BYTES
    ensures var captures := Captures(items, attempts, aggregate, next);
            && |captures| == |items|
            && (forall k :: 0 <= k < |items| ==>
                  && captures[k].itemId == items[k]
                  && (captures[k].Captured? ==> captures[k].byteLength <= PHOTOSHOP_MAX_FILE_BYTES))
            && aggregate + Bytes(captures) <= PHOTOSHOP_MAX_BATCH_BYTES
  {
    NoneHasNoFiles(items);
    if items == [] {
    } else {
      var taken := Take(items[0], attempts[0], aggregate, next);
      if taken.Taken? {
        CapturesAreBounded(items[1..], attempts[1..], taken.aggregate, taken.next);
      }
    }
  }

  // The bytes staged by the first `count` items when no item stops the batch.
  function StagedBefore(attempts: seq<Attempt>, count: nat): nat
    requires count <= |attempts|
  {
    if count == 0 then 0
    else StagedBefore(attempts, count - 1)
         + if Fits(attempts[count - 1]) && attempts[count - 1].staging.Written? then attempts[count - 1].byteLength
             else 0
  }

  predicate Fits(attempt: Attempt) {
    attempt.Encoded? && attempt.byteLength <= PHOTOSHOP_MAX_FILE_BYTES
  }

  // Item `k` is the one that would take the batch over its limit.
  predicate Overflows(attempts: seq<Attempt>, aggregate: nat, k: nat)
    requires k < |attempts|
  {
    Fits(attempts[k]) && aggregate + StagedBefore(attempts, k) + attempts[k].byteLength > PHOTOSHOP_MAX_BATCH_BYTES
  }

  lemma {:induction false} StagedShift(attempts: seq<Attempt>, count: nat)
    requires 0 < count <= |attempts|
    ensures StagedBefore(attempts, count) == StagedBefore(attempts, 1) + StagedBefore(attempts[1..], count - 1)
  {
    if count > 1 {
      StagedShift(attempts, count - 1);
      assert attempts[1..][count - 2] == attempts[count - 1];
    }
  }

  lemma OverflowShift(attempts: seq<Attempt>, aggregate: nat, k: nat)
    requires 0 < k < |attempts|
    ensures Overflows(attempts, aggregate, k) == Overflows(attempts[1..], aggregate + StagedBefore(attempts, 1), k - 1)
  {
    StagedShift(attempts, k);
  }

  // Neither item `k` nor one before it does.
  predicate Room(attempts: seq<Attempt>, aggregate: nat, k: nat)
    requires k < |attempts|
  {
    !Overflows(attempts, aggregate, k) && (k > 0 ==> Room(attempts, aggregate, k - 1))
  }

  lemma {:induction false} RoomShift(attempts: seq<Attempt>, aggregate: nat, k: nat)
    requires 0 < k < |attempts|
    ensures Room(attempts, aggregate, k) <==>
              !Overflows(attempts, aggregate, 0) && Room(attempts[1..], aggregate + StagedBefore(attempts, 1), k - 1)
  {
    OverflowShift(attempts, aggregate, k);
    if k > 1 {
      RoomShift(attempts, aggregate, k - 1);
    }
  }

  // The files created for the first `count` items when no item stops the batch.
  function CreatedBefore(attempts: seq<Attempt>, count: nat): nat
    requires count <= |attempts|
  {
    if count == 0 then 0
    else CreatedBefore(attempts, count - 1)
         + if Fits(attempts[count - 1]) && !attempts[count - 1].staging.CreateFailed? then 1 else 0
  }

  lemma {:induction false} CreatedShift(attempts: seq<Attempt>, count: nat)
    requires 0 < count <= |attempts|
    ensures CreatedBefore(attempts, count) == CreatedBefore(attempts, 1) + CreatedBefore(attempts[1..], count - 1)
  {
    if count > 1 {
      CreatedShift(attempts, count - 1);
      assert attempts[1..][count - 2] == attempts[count - 1];
    }
  }

  /** A captured item has its own PNG, in a file of its own: the next one after those made for the items
      before it, whether or not these are still there. */
  lemma {:induction false} CapturedInItsFile(items: seq<ItemId>, attempts: seq<Attempt>, aggregate: nat, next: File,
                                             k: nat)
    requires |attempts| == |items| && k < |items|
    ensures |Captures(items, attempts, aggregate, next)| == |items|
    ensures var capture := Captures(items, attempts, aggregate, next)[k];
            capture.Captured? ==>
              && attempts[k].Encoded?
              && capture == Captured(items[k], next + CreatedBefore(attempts, k), attempts[k].byteLength)
              && CreatedBefore(attempts, k + 1) == CreatedBefore(attempts, k) + 1
  {
    CapturedExactly(items, attempts, aggregate, next, k);
    var taken := Take(items[0], attempts[0], aggregate, next);
    assert taken.Taken? ==> taken.next == next + CreatedBefore(attempts, 1);
    if taken.Taken? && k > 0 {
      CapturedInItsFile(items[1..], attempts[1..], taken.aggregate, taken.next, k - 1);
      CreatedShift(attempts, k);
      CreatedShift(attempts, k + 1);
    }
  }

  /** An item is captured exactly when its PNG fits a file, is written, and neither it nor an item before
      it takes the batch over its limit. */
  lemma {:induction false} CapturedExactly(items: seq<ItemId>, attempts: seq<Attempt>, aggregate: nat, next: File,
                                           k: nat)
    requires |attempts| == |items| && k < |items|
    ensures |Captures(items, attempts, aggregate, next)| == |items|
    ensures Captures(items, attempts, aggregate, next)[k].Captured? <==>
              Fits(attempts[k]) && attempts[k].staging.Written? && Room(attempts, aggregate, k)
  {
    var taken := Take(items[0], attempts[0], aggregate, next);
    assert StagedBefore(attempts, 1) == if Fits(attempts[0]) && attempts[0].staging.Written?
        then attempts[0].byteLength else 0;
    if taken.Taken? && |items| > 1 {
      CapturedExactly(items[1..], attempts[1..], taken.aggregate, taken.next, if k > 0 then k - 1 else 0);
    }
    if k > 0 {
      RoomShift(attempts, aggregate, k);
    }
  }

  // ---------- What is settled ----------

  // The Map built from the captures keeps the last one of an item.
  function CaptureOf(captures: seq<Capture>, item: ItemId): (capture: Option<Capture>)
    ensures capture.Some? ==> capture.value in captures && capture.value.itemId == item
    ensures capture.None? ==> forall c :: c in captures ==> c.itemId != item
  {
    if captures == [] then None
    else if captures[|captures| - 1].itemId == item then Some(captures[|captures| - 1])
    else CaptureOf(captures[..|captures| - 1], item)
  }

  function AllNotAttempted(items: seq<ItemId>): (r: seq<Settlement>)
    ensures |r| == |items| && forall k :: 0 <= k < |items| ==> r[k] == NotAttempted(items[k])
  {
    seq(|items|, k requires 0 <= k < |items| => NotAttempted(items[k]))
  }

  datatype Verdict = Settled(settlement: Settlement) | Stopped(last: Settlement)

  function Attempted(item: ItemId, capture: Option<Capture>, upload: Upload): Verdict {
    if capture.None? || capture.value.NotCaptured? then Settled(Failed(item))
    else
      match upload
      case ReadBackFailed => Settled(Failed(item))
      case Uploaded(fileName) => Settled(Committed(item, fileName))
      case OutcomeUnknown => Stopped(Unknown(item))
      case TransferRejected => Settled(Failed(item))
      case SessionLost => Stopped(NotAttempted(item))
      case Thrown(live) => if live then Settled(Failed(item)) else Stopped(NotAttempted(item))
  }

  function Settlements(items: seq<ItemId>, captures: seq<Capture>, uploads: seq<Upload>): seq<Settlement>
    requires |uploads| == |items|
  {
    if items == [] then []
    else
      match Attempted(items[0], CaptureOf(captures, items[0]), uploads[0])
      case Settled(settlement) => [settlement] + Settlements(items[1..], captures, uploads[1..])
      case Stopped(last) => [last] + AllNotAttempted(items[1..])
  }

  predicate Final(settlement: Settlement) {
    settlement.Committed? || settlement.Failed?
  }

  /** Decided items come first; then at most one whose outcome is unknown or that was not attempted;
      everything after that was not attempted. */
  ghost predicate Ordered(settlements: seq<Settlement>) {
    exists stop :: 0 <= stop <= |settlements| && StopsAt(settlements, stop)
  }

  ghost predicate StopsAt(settlements: seq<Settlement>, stop: nat)
    requires stop <= |settlements|
  {
    && (forall k :: 0 <= k < stop ==> Final(settlements[k]))
    && (stop < |settlements| ==> !Final(settlements[stop]))
    && (forall k :: stop < k < |settlements| ==> settlements[k].NotAttempted?)
  }

  lemma {:induction false} SettlementsAreOrdered(items: seq<ItemId>, captures: seq<Capture>, uploads: seq<Upload>)
    requires |uploads| == |items|
    ensures |Settlements(items, captures, uploads)| == |items|
    ensures forall k :: 0 <= k < |items| ==> Settlements(items, captures, uploads)[k].itemId == items[k]
    ensures Ordered(Settlements(items, captures, uploads))
  {
    var settlements := Settlements(items, captures, uploads);
    if items == [] {
      assert StopsAt(settlements, 0);
    } else if Attempted(items[0], CaptureOf(captures, items[0]), uploads[0]).Stopped? {
      assert StopsAt(settlements, 0);
    } else {
      var rest := Settlements(items[1..], captures, uploads[1..]);
      SettlementsAreOrdered(items[1..], captures, uploads[1..]);
      var stop :| 0 <= stop <= |rest| && StopsAt(rest, stop);
      assert settlements == [settlements[0]] + rest;
      assert StopsAt(settlements, stop + 1);
    }
  }

  /** An item is reported committed exactly when it was captured, its upload was confirmed, under the
      confirmed name, and no item before it stopped the batch. */
  lemma {:induction false} CommittedExactly(items: seq<ItemId>, captures: seq<Capture>, uploads: seq<Upload>, k: nat,
                                            name: string)
    requires |uploads| == |items| && k < |items|
    ensures |Settlements(items, captures, uploads)| == |items|
    ensures Settlements(items, captures, uploads)[k] == Committed(items[k], name) <==>
              && CaptureOf(captures, items[k]).Some? && CaptureOf(captures, items[k]).value.Captured?
              && uploads[k] == Uploaded(name)
              && forall j :: 0 <= j < k ==> Attempted(items[j], CaptureOf(captures, items[j]), uploads[j]).Settled?
  {
    SettlementsAreOrdered(items, captures, uploads);
    if k == 0 {
    } else {
      CommittedExactly(items[1..], captures, uploads[1..], k - 1, name);
      SettledShift(items, captures, uploads, k);
    }
  }

  // Whether every item before `k` is settled, seen from the first item and from the rest.
  lemma SettledShift(items: seq<ItemId>, captures: seq<Capture>, uploads: seq<Upload>, k: nat)
    requires |uploads| == |items| && 0 < k < |items|
    ensures (forall j :: 0 <= j < k ==> Attempted(items[j], CaptureOf(captures, items[j]), uploads[j]).Settled?) <==>
              && Attempted(items[0], CaptureOf(captures, items[0]), uploads[0]).Settled?
              && forall j :: 0 <= j < k - 1 ==>
                   Attempted(items[1..][j], CaptureOf(captures, items[1..][j]), uploads[1..][j]).Settled?
  {
    var first := Attempted(items[0], CaptureOf(captures, items[0]), uploads[0]).Settled?;
    var rest := forall j :: 0 <= j < k - 1 ==>
                  Attempted(items[1..][j], CaptureOf(captures, items[1..][j]), uploads[1..][j]).Settled?;
    if first && rest {
      forall j | 0 <= j < k
        ensures Attempted(items[j], CaptureOf(captures, items[j]), uploads[j]).Settled?
      {
        if j > 0 {
          assert items[1..][j - 1] == items[j] && uploads[1..][j - 1] == uploads[j];
        }
      }
    }
  }

  lemma {:induction false} CaptureAt(captures: seq<Capture>, items: seq<ItemId>, k: nat)
    requires |captures| == |items| && k < |items| && Distinct(items)
    requires forall j :: 0 <= j < |items| ==> captures[j].itemId == items[j]
    ensures CaptureOf(captures, items[k]) == Some(captures[k])
  {
    var last := |captures| - 1;
    if k < last {
      CaptureAt(captures[..last], items[..last], k);
    }
  }

  // The upload of item `j` ended the batch: its outcome is unknown or the session was gone.
  predicate Stops(attempts: seq<Attempt>, uploads: seq<Upload>, j: nat)
    requires j < |attempts| == |uploads|
  {
    && Fits(attempts[j]) && attempts[j].staging.Written? && Room(attempts, 0, j)
    && (uploads[j].OutcomeUnknown? || uploads[j].SessionLost? || uploads[j] == Thrown(false))
  }

  lemma VerdictAt(items: seq<ItemId>, attempts: seq<Attempt>, uploads: seq<Upload>, next: File, j: nat)
    requires |items| == |attempts| == |uploads| && j < |items| && Distinct(items)
    ensures var capture := CaptureOf(Captures(items, attempts, 0, next), items[j]);
            && capture.Some?
            && (capture.value.Captured? <==> Fits(attempts[j]) && attempts[j].staging.Written? && Room(attempts, 0, j))
            && (Attempted(items[j], capture, uploads[j]).Stopped? <==> Stops(attempts, uploads, j))
  {
    CapturesAreBounded(items, attempts, 0, next);
    CaptureAt(Captures(items, attempts, 0, next), items, j);
    CapturedExactly(items, attempts, 0, next, j);
  }

  /** Over the whole pipeline: an item ends committed under a name exactly when it was staged within the
      limits, Runtime confirmed that name for it, and no staged item before it ended the batch. */
  lemma ExportedExactly(items: seq<ItemId>, attempts: seq<Attempt>, uploads: seq<Upload>, next: File, k: nat,
                        name: string)
    requires |items| == |attempts| == |uploads| && k < |items| && Distinct(items)
    ensures |Settlements(items, Captures(items, attempts, 0, next), uploads)| == |items|
    ensures Settlements(items, Captures(items, attempts, 0, next), uploads)[k] == Committed(items[k], name) <==>
              && Fits(attempts[k]) && attempts[k].staging.Written? && Room(attempts, 0, k)
              && uploads[k] == Uploaded(name)
              && forall j :: 0 <= j < k ==> !Stops(attempts, uploads, j)
  {
    var captures := Captures(items, attempts, 0, next);
    CommittedExactly(items, captures, uploads, k, name);
    VerdictAt(items, attempts, uploads, next, k);
    forall j | 0 <= j < k
      ensures Attempted(items[j], CaptureOf(captures, items[j]), uploads[j]).Settled? <==> !Stops(attempts, uploads, j)
    {
      VerdictAt(items, attempts, uploads, next, j);
    }
  }

  // The upload of a captured item left it undecided, and so ended the batch.
  predicate EndsBatch(captures: seq<Capture>, item: ItemId, upload: Upload) {
    && CaptureOf(captures, item).Some? && CaptureOf(captures, item).value.Captured?
    && (upload.OutcomeUnknown? || upload.SessionLost? || upload == Thrown(false))
  }

  /** What an item is reported as, if it is reached, whatever became of the others. */
  ghost predicate SettledAs(item: ItemId, captured: bool, upload: Upload, reached: bool, settlement: Settlement) {
    && settlement.itemId == item
    && (settlement.Committed? <==> reached && captured && upload.Uploaded?)
    && (settlement.Committed? ==> settlement.fileName == upload.fileName)
    && (settlement.Unknown? <==> reached && captured && upload.OutcomeUnknown?)
    && (settlement.NotAttempted? <==> !reached || (captured && (upload.SessionLost? || upload == Thrown(false))))
    && (settlement.Failed? <==>
        reached && (!captured || upload.ReadBackFailed? || upload.TransferRejected? || upload == Thrown(true)))
  }

  // No item before `k` ended the batch.
  predicate Reached(items: seq<ItemId>, captures: seq<Capture>, uploads: seq<Upload>, k: nat)
    requires |uploads| == |items| && k <= |items|
  {
    forall j :: 0 <= j < k ==> !EndsBatch(captures, items[j], uploads[j])
  }

  lemma ReachedShift(items: seq<ItemId>, captures: seq<Capture>, uploads: seq<Upload>, k: nat)
    requires |uploads| == |items| && 0 < k <= |items|
    ensures Reached(items, captures, uploads, k) <==>
              !EndsBatch(captures, items[0], uploads[0]) && Reached(items[1..], captures, uploads[1..], k - 1)
  {
    assert forall j :: 0 <= j < k - 1 ==> items[1..][j] == items[j + 1] && uploads[1..][j] == uploads[j + 1];
    if Reached(items, captures, uploads, k) {
      forall j | 0 <= j < k - 1
        ensures !EndsBatch(captures, items[1..][j], uploads[1..][j])
      {
        assert !EndsBatch(captures, items[j + 1], uploads[j + 1]);
      }
    }
    if !EndsBatch(captures, items[0], uploads[0]) && Reached(items[1..], captures, uploads[1..], k - 1) {
      forall j | 0 <= j < k
        ensures !EndsBatch(captures, items[j], uploads[j])
      {
        assert j > 0 ==> !EndsBatch(captures, items[1..][j - 1], uploads[1..][j - 1]);
      }
    }
  }

  lemma {:induction false} SettledExactly(items: seq<ItemId>, captures: seq<Capture>, uploads: seq<Upload>, k: nat)
    requires |uploads| == |items| && k < |items|
    ensures |Settlements(items, captures, uploads)| == |items|
    ensures var captured := CaptureOf(captures, items[k]).Some? && CaptureOf(captures, items[k]).value.Captured?;
            SettledAs(items[k], captured, uploads[k], Reached(items, captures, uploads, k),
                      Settlements(items, captures, uploads)[k])
  {
    SettlementsAreOrdered(items, captures, uploads);
    if k == 0 {
    } else {
      SettledExactly(items[1..], captures, uploads[1..], k - 1);
      ReachedShift(items, captures, uploads, k);
    }
  }

  lemma EndsBatchAt(items: seq<ItemId>, attempts: seq<Attempt>, uploads: seq<Upload>, next: File, j: nat)
    requires |items| == |attempts| == |uploads| && j < |items| && Distinct(items)
    ensures var captures := Captures(items, attempts, 0, next);
            && CaptureOf(captures, items[j]).Some?
            && (CaptureOf(captures, items[j]).value.Captured? <==>
                Fits(attempts[j]) && attempts[j].staging.Written? && Room(attempts, 0, j))
            && (EndsBatch(captures, items[j], uploads[j]) <==> Stops(attempts, uploads, j))
  {
    CapturesAreBounded(items, attempts, 0, next);
    CaptureAt(Captures(items, attempts, 0, next), items, j);
    CapturedExactly(items, attempts, 0, next, j);
  }

  /** Over the whole pipeline, what each item is reported as: while no staged item before it ended the
      batch, committed if it was staged and confirmed, unknown if it was staged and its outcome is unknown,
      not attempted if it was staged and the session was gone, and failed otherwise; and not attempted once
      the batch has ended. */
  lemma ReportedExactly(items: seq<ItemId>, attempts: seq<Attempt>, uploads: seq<Upload>, next: File, k: nat)
    requires |items| == |attempts| == |uploads| && k < |items| && Distinct(items)
    ensures |Settlements(items, Captures(items, attempts, 0, next), uploads)| == |items|
    ensures SettledAs(items[k], Fits(attempts[k]) && attempts[k].staging.Written? && Room(attempts, 0, k), uploads[k],
                      forall j :: 0 <= j < k ==> !Stops(attempts, uploads, j),
                      Settlements(items, Captures(items, attempts, 0, next), uploads)[k])
  {
    var captures := Captures(items, attempts, 0, next);
    SettledExactly(items, captures, uploads, k);
    EndsBatchAt(items, attempts, uploads, next, k);
    forall j | 0 <= j < k
      ensures EndsBatch(captures, items[j], uploads[j]) <==> Stops(attempts, uploads, j)
    {
      EndsBatchAt(items, attempts, uploads, next, j);
    }
  }

  function Finish(settlements: seq<Settlement>): (r: seq<FinishItem>)
    ensures |r| == |settlements|
    ensures forall k :: 0 <= k < |r| ==>
              && r[k].itemId == settlements[k].itemId
              && r[k].fileName == if settlements[k].Committed? then Some(settlements[k].fileName) else None
  {
    seq(|settlements|, k requires 0 <= k < |settlements| =>
      FinishItem(settlements[k].itemId, if settlements[k].Committed? then Some(settlements[k].fileName) else None))
  }

  predicate AllFinal(settlements: seq<Settlement>) {
    forall s :: s in settlements ==> Final(s)
  }

  // ---------- The pipeline ----------

  /** What happens at the awaits of one export, in order. The session is live at a later point only if
      it is live at every earlier one. */
  datatype Fate = Fate(
    startSent: bool, admitted: bool, modal: Modal, attempts: seq<Attempt>, liveAfterCapture: bool,
    uploads: seq<Upload>, liveAfterUploads: bool, finishSent: bool)

  // What the capture of item `index` adds to the captures made so far.
  lemma OneMoreCaptured(items: seq<ItemId>, attempts: seq<Attempt>, index: nat, captured: seq<Capture>,
                        aggregate: nat, next: File)
    requires |attempts| == |items| && index < |items|
    ensures var all := captured + Captures(items[index..], attempts[index..], aggregate, next);
            match Take(items[index], attempts[index], aggregate, next)
            case Full => all == captured + [NotCaptured(items[index])] + NoneCaptured(items[index + 1..])
            case Taken(capture, total, after) =>
              all == captured + [capture] + Captures(items[index + 1..], attempts[index + 1..], total, after)
  {
    assert items[index..][1..] == items[index + 1..] && attempts[index..][1..] == attempts[index + 1..];
    assert NoneCaptured(items[index..]) == [NotCaptured(items[index])] + NoneCaptured(items[index + 1..]);
  }

  // The loop's captures so far, with the rest still to come.
  ghost predicate CapturedSoFar(items: seq<ItemId>, attempts: seq<Attempt>, start: File, index: nat,
                                captured: seq<Capture>,
                                aggregate: nat, next: File)
  {
    && |attempts| == |items| && index <= |items|
    && Captures(items, attempts, 0, start) == captured + Captures(items[index..], attempts[index..], aggregate, next)
  }

  lemma NothingCaptured(items: seq<ItemId>, attempts: seq<Attempt>, start: File)
    requires |attempts| == |items|
    ensures CapturedSoFar(items, attempts, start, 0, [], 0, start) && Files([]) == []
  {
    assert items[0..] == items && attempts[0..] == attempts;
  }

  lemma AllCaptured(items: seq<ItemId>, attempts: seq<Attempt>, start: File, captured: seq<Capture>, aggregate: nat,
                    next: File)
    requires CapturedSoFar(items, attempts, start, |items|, captured, aggregate, next)
    ensures captured == Captures(items, attempts, 0, start)
  {
    assert captured + [] == captured;
  }

  lemma CapturedNext(items: seq<ItemId>, attempts: seq<Attempt>, start: File, index: nat, captured: seq<Capture>,
                     aggregate: nat, next: File, taken: Taken)
    requires CapturedSoFar(items, attempts, start, index, captured, aggregate, next) && index < |items|
    requires taken == Take(items[index], attempts[index], aggregate, next)
    ensures taken.Full? ==>
              && captured + [NotCaptured(items[index])] + NoneCaptured(items[index + 1..])
                  == Captures(items, attempts, 0, start)
              && Files(captured + [NotCaptured(items[index])] + NoneCaptured(items[index + 1..])) == Files(captured)
    ensures taken.Taken? ==>
              && CapturedSoFar(items, attempts, start, index + 1, captured + [taken.capture], taken.aggregate,
                  taken.next)
              && Files(captured + [taken.capture]) == Files(captured) + FileOf(taken.capture)
  {
    OneMoreCaptured(items, attempts, index, captured, aggregate, next);
    FilesAfter(captured, if taken.Full? then NotCaptured(items[index]) else taken.capture, items[index + 1..]);
  }

  lemma FilesAfter(captured: seq<Capture>, capture: Capture, rest: seq<ItemId>)
    ensures Files(captured + [capture]) == Files(captured) + FileOf(capture)
    ensures Files(captured + [capture] + NoneCaptured(rest)) == Files(captured + [capture])
  {
    FilesConcat(captured, [capture]);
    FilesConcat(captured + [capture], NoneCaptured(rest));
    NoneHasNoFiles(rest);
  }

  // A start message that is not sent, and an admission that is refused, both come with a lost session.
  predicate Admitted(fate: Fate) {
    fate.startSent && fate.admitted
  }

  class PhotoshopExport {
    var created: seq<File>
    var deleted: seq<File>
    var busy: bool
    var live: bool
    var finishes: seq<seq<FinishItem>>   // the export.finish messages Runtime received

    constructor ()
      ensures created == [] && deleted == [] && !busy && live && finishes == []
    {
      created, deleted, busy, live, finishes := [], [], false, true, [];
    }

    // Files created and not deleted yet are the ones `staged` stands for.
    ghost predicate Owns(staged: seq<File>)
      reads this
    {
      && multiset(created) == multiset(deleted) + multiset(staged)
      && forall f :: f in created ==> f < |created|
    }

    method StagePng(staging: Staging, ghost staged: seq<File>) returns (file: Option<File>)
      requires Owns(staged)
      modifies `created, `deleted
      ensures file == if staging.Written? then Some(|old(created)|) else None
      ensures |created| == |old(created)| + if staging.CreateFailed? then 0 else 1
      ensures Owns(if file.Some? then staged + [file.value] else staged)
    {
      if staging.CreateFailed? {
        return None;
      }
      var next := |created|;
      created := created + [next];
      if staging.WriteFailed? {
        deleted := deleted + [next];
        return None;
      }
      file := Some(next);
    }

    method DeleteAll(staged: seq<File>)
      requires Owns(staged)
      modifies `deleted
      ensures Owns([]) && deleted == old(deleted) + staged
    {
      deleted := deleted + staged;
    }

    // One turn of the capture loop.
    method CaptureItem(item: ItemId, attempt: Attempt, aggregateBytes: nat, ghost staged: seq<File>)
      returns (taken: Taken)
      requires Owns(staged)
      modifies `created, `deleted
      ensures taken == Take(item, attempt, aggregateBytes, |old(created)|)
      ensures taken.Taken? ==>
                && |created| == taken.next
                && Owns(staged + FileOf(taken.capture))
      ensures taken.Full? ==> Owns(staged) && |created| == |old(created)|
    {
      assert staged + [] == staged;
      if attempt.Unreadable? || attempt.byteLength > PHOTOSHOP_MAX_FILE_BYTES {
        return Taken(NotCaptured(item), aggregateBytes, |created|);
      }
      if aggregateBytes + attempt.byteLength > PHOTOSHOP_MAX_BATCH_BYTES {
        return Full;
      }
      var file := StagePng(attempt.staging, staged);
      if file.None? {
        return Taken(NotCaptured(item), aggregateBytes, |created|);
      }
      taken := Taken(Captured(item, file.value, attempt.byteLength), aggregateBytes + attempt.byteLength, |created|);
    }

    // The body run as one modal command.
    method CaptureItems(items: seq<ItemId>, attempts: seq<Attempt>) returns (captured: seq<Capture>)
      requires |attempts| == |items| && Owns([])
      modifies `created, `deleted
      ensures captured == Captures(items, attempts, 0, |old(created)|)
      ensures Owns(Files(captured))
    {
      captured := [];
      var aggregateBytes: nat := 0;
      var index := 0;
      NothingCaptured(items, attempts, |created|);
      while index < |items|
        invariant CapturedSoFar(items, attempts, |old(created)|, index, captured, aggregateBytes, |created|)
        invariant Owns(Files(captured))
        decreases |items| - index
      {
        ghost var next := |created|;
        var taken := CaptureItem(items[index], attempts[index], aggregateBytes, Files(captured));
        CapturedNext(items, attempts, |old(created)|, index, captured, aggregateBytes, next, taken);
        if taken.Full? {
          return captured + [NotCaptured(items[index])] + NoneCaptured(items[index + 1..]);
        }
        captured := captured + [taken.capture];
        aggregateBytes := taken.aggregate;
        index := index + 1;
      }
      AllCaptured(items, attempts, |old(created)|, captured, aggregateBytes, |created|);
    }

    method CapturePngs(items: seq<ItemId>, modal: Modal, attempts: seq<Attempt>)
      returns (captures: Option<seq<Capture>>)
      requires |attempts| == |items| && Owns([])
      modifies `created, `deleted
      ensures captures == if modal.Completed? then Some(Captures(items, attempts, 0, |old(created)|)) else None
      ensures Owns(if captures.Some? then Files(captures.value) else [])
    {
      if modal.NoDocument? {
        return None;
      }
      var captured := CaptureItems(items, attempts);
      if modal.Rejected? {
        DeleteAll(Files(captured));
        return None;
      }
      captures := Some(captured);
    }

    // One turn of the upload loop.
    method UploadItem(item: ItemId, capture: Option<Capture>, upload: Upload) returns (verdict: Verdict)
      ensures verdict == Attempted(item, capture, upload)
    {
      if capture.None? || capture.value.NotCaptured? {
        return Settled(Failed(item));
      }
      match upload {
        case ReadBackFailed => return Settled(Failed(item));
        case Uploaded(fileName) => return Settled(Committed(item, fileName));
        case OutcomeUnknown => return Stopped(Unknown(item));
        case TransferRejected => return Settled(Failed(item));
        case SessionLost => return Stopped(NotAttempted(item));
        case Thrown(stillLive) =>
          if !stillLive {
            return Stopped(NotAttempted(item));
          }
          return Settled(Failed(item));
      }
    }

    method UploadCaptured(items: seq<ItemId>, captures: seq<Capture>, uploads: seq<Upload>)
      returns (results: seq<Settlement>)
      requires |uploads| == |items|
      ensures results == Settlements(items, captures, uploads)
    {
      results := [];
      var index := 0;
      while index < |items|
        invariant index <= |items|
        invariant Settlements(items, captures, uploads)
                      == results + Settlements(items[index..], captures, uploads[index..])
      {
        OneMoreSettled(items, captures, uploads, index, results);
        var verdict := UploadItem(items[index], CaptureOf(captures, items[index]), uploads[index]);
        if verdict.Stopped? {
          return results + [verdict.last] + AllNotAttempted(items[index + 1..]);
        }
        results := results + [verdict.settlement];
        index := index + 1;
      }
    }

    // A send on a dead session throws; a send that fails retires the session.
    method SendFinish(settlements: seq<Settlement>, sent: bool) returns (threw: bool)
      modifies `finishes, `live
      ensures threw == !(old(live) && sent)
      ensures live == (old(live) && sent)
      ensures finishes == if threw then old(finishes) else old(finishes) + [Finish(settlements)]
    {
      if !live {
        return true;
      }
      if !sent {
        live := false;
        return true;
      }
      finishes := finishes + [Finish(settlements)];
      threw := false;
    }

    // From the admission to the settlement of every item; a failed capture is settled as a whole.
    method CaptureAndUpload(items: seq<ItemId>, fate: Fate)
      returns (settlements: seq<Settlement>, captures: Option<seq<Capture>>)
      requires |fate.attempts| == |fate.uploads| == |items| && Owns([]) && live
      modifies `created, `deleted, `live
      ensures captures.Some? <==> fate.modal.Completed?
      ensures Owns(if captures.Some? then Files(captures.value) else [])
      ensures live == (fate.liveAfterCapture && (captures.Some? ==> fate.liveAfterUploads))
      ensures settlements == Outcome(items, fate, |old(created)|)
    {
      captures := CapturePngs(items, fate.modal, fate.attempts);
      live := live && fate.liveAfterCapture;
      if captures.None? {
        settlements := Undecided(items, live);
        return;
      }
      settlements := UploadCaptured(items, captures.value, fate.uploads);
      live := live && fate.liveAfterUploads;
    }

    /** One export, from its start message to its cleanup. */
    method SendSelection(items: seq<ItemId>, resolved: bool, fate: Fate)
      returns (settlements: seq<Settlement>, threw: bool)
      requires |fate.attempts| == |fate.uploads| == |items| && Owns([])
      modifies this
      // refused before anything is done
      ensures !(old(live) && !old(busy) && resolved && 1 <= |items| <= PHOTOSHOP_MAX_BATCH_ITEMS) ==>
                && threw && settlements == [] && busy == old(busy) && live == old(live)
                && created == old(created) && deleted == old(deleted) && finishes == old(finishes)
      ensures old(live) && !old(busy) && resolved && 1 <= |items| <= PHOTOSHOP_MAX_BATCH_ITEMS ==>
                && !busy
                // an admitted export settles every item, another one none
                && settlements == (if Admitted(fate) then Outcome(items, fate, |old(created)|) else [])
                && (threw <==> !(Admitted(fate) && fate.modal.Completed?)
                               || (AllFinal(settlements) && fate.liveAfterCapture && fate.liveAfterUploads
                                   && !fate.finishSent))
                // Runtime is told once, of all items, exactly when all are decided and the session lasts
                && finishes == old(finishes)
                               + if Admitted(fate) && AllFinal(settlements) && live then [Finish(settlements)] else []
      // an export that is not admitted ends the session and does nothing else
      ensures old(live) && (!fate.startSent || !fate.admitted)
              && !old(busy) && resolved && 1 <= |items| <= PHOTOSHOP_MAX_BATCH_ITEMS ==>
                && threw && !live && settlements == [] && finishes == old(finishes)
                && created == old(created) && deleted == old(deleted)
      // every file made on the way has its deletion attempted exactly once
      ensures multiset(deleted) == multiset(created)
    {
      settlements, threw := [], true;
      if !live || busy || !resolved || |items| == 0 || |items| > PHOTOSHOP_MAX_BATCH_ITEMS {
        return;
      }
      busy := true;
      if !Admitted(fate) {
        live, busy := false, false;
        return;
      }
      var captures;
      settlements, captures := CaptureAndUpload(items, fate);
      UndecidedShape(items, live);
      if captures.None? {
        if live {
          var failed := SendFinish(settlements, fate.finishSent);
        }
        busy := false;
        return;
      }
      threw := false;
      if live && AllFinal(settlements) {
        threw := SendFinish(settlements, fate.finishSent);
        // The handler of a failed send would report again, but the session is gone.
        assert threw ==> !live;
      }
      DeleteAll(Files(captures.value));
      busy := false;
    }
  }

  function Outcome(items: seq<ItemId>, fate: Fate, next: File): seq<Settlement>
    requires |fate.attempts| == |fate.uploads| == |items|
  {
    if fate.modal.Completed? then Settlements(items, Captures(items, fate.attempts, 0, next), fate.uploads)
    else Undecided(items, fate.liveAfterCapture)
  }

  /** An admitted export settles every item once, in order, and in the order of certainty. */
  lemma OutcomeIsTotal(items: seq<ItemId>, fate: Fate, next: File)
    requires |fate.attempts| == |fate.uploads| == |items|
    ensures |Outcome(items, fate, next)| == |items|
    ensures forall k :: 0 <= k < |items| ==> Outcome(items, fate, next)[k].itemId == items[k]
    ensures Ordered(Outcome(items, fate, next))
  {
    SettlementsAreOrdered(items, Captures(items, fate.attempts, 0, next), fate.uploads);
    UndecidedShape(items, fate.liveAfterCapture);
  }

  /** What each item of an admitted export is reported as. If the capture as a whole failed, all alike:
      failed while the session lasts, not attempted without it. */
  lemma OutcomeExactly(items: seq<ItemId>, fate: Fate, next: File, k: nat)
    requires |fate.attempts| == |fate.uploads| == |items| && k < |items| && Distinct(items)
    ensures |Outcome(items, fate, next)| == |items|
    ensures var settlement := Outcome(items, fate, next)[k];
            var (attempts, uploads) := (fate.attempts, fate.uploads);
            if fate.modal.Completed? then
              SettledAs(items[k], Fits(attempts[k]) && attempts[k].staging.Written? && Room(attempts, 0, k),
                        uploads[k], forall j :: 0 <= j < k ==> !Stops(attempts, uploads, j), settlement)
            else if fate.liveAfterCapture then settlement == Failed(items[k])
            else settlement == NotAttempted(items[k])
  {
    if fate.modal.Completed? {
      ReportedExactly(items, fate.attempts, fate.uploads, next, k);
    }
  }

  lemma OneMoreSettled(items: seq<ItemId>, captures: seq<Capture>, uploads: seq<Upload>, index: nat,
                       results: seq<Settlement>)
    requires |uploads| == |items| && index < |items|
    ensures var all := results + Settlements(items[index..], captures, uploads[index..]);
            match Attempted(items[index], CaptureOf(captures, items[index]), uploads[index])
            case Stopped(last) => all == results + [last] + AllNotAttempted(items[index + 1..])
            case Settled(settlement) =>
              all == results + [settlement] + Settlements(items[index + 1..], captures, uploads[index + 1..])
  {
    assert items[index..][1..] == items[index + 1..] && uploads[index..][1..] == uploads[index + 1..];
  }

  // What is settled when the capture as a whole failed.
  function Undecided(items: seq<ItemId>, live: bool): (r: seq<Settlement>)
    ensures |r| == |items|
    ensures forall k :: 0 <= k < |items| ==> r[k] == if live then Failed(items[k]) else NotAttempted(items[k])
  {
    seq(|items|, k requires 0 <= k < |items| => if live then Failed(items[k]) else NotAttempted(items[k]))
  }

  lemma UndecidedShape(items: seq<ItemId>, live: bool)
    ensures Ordered(Undecided(items, live))
    ensures AllFinal(Undecided(items, live)) <==> live || items == []
  {
    var settlements := Undecided(items, live);
    assert StopsAt(settlements, if live then |items| else 0);
    if !live && items != [] {
      assert settlements[0] in settlements;
    }
  }
}
