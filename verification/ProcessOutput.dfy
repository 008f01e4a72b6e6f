/** What is kept of a worker process: the bounded tail of its output and the failures recorded of it. */
module ProcessOutput {
  import opened Options
  import opened Flattening
  import opened BigEndian

  // The last `limit` bytes.
  function Last(bytes: Bytes, limit: nat): (tail: Bytes)
    ensures |tail| == if |bytes| < limit then |bytes| else limit
  {
    if |bytes| <= limit then bytes else bytes[|bytes| - limit..]
  }

  predicate Oversized(pushes: seq<Bytes>, limit: nat) {
    exists k :: 0 <= k < |pushes| && |pushes[k]| >= limit
  }

  lemma LastOfLast(before: Bytes, bytes: Bytes, limit: nat)
    ensures Last(Last(before, limit) + bytes, limit) == Last(before + bytes, limit)
  {}

  lemma {:induction false} OneOfThem(pushes: seq<Bytes>, k: nat)
    requires k < |pushes|
    ensures |pushes[k]| <= |Joined(pushes)|
    ensures |pushes[k]| == |Joined(pushes)| ==> forall j :: 0 <= j < |pushes| && j != k ==> pushes[j] == []
  {
    if k == 0 {
      if |pushes[0]| == |Joined(pushes)| {
        assert Joined(pushes[1..]) == [];
        NothingJoined(pushes[1..]);
        assert forall j :: 1 <= j < |pushes| ==> pushes[j] == pushes[1..][j - 1];
      }
    } else {
      OneOfThem(pushes[1..], k - 1);
      assert forall j :: 1 <= j < |pushes| ==> pushes[j] == pushes[1..][j - 1];
    }
  }

  lemma {:induction false} NothingJoined(pushes: seq<Bytes>)
    requires Joined(pushes) == []
    ensures forall j :: 0 <= j < |pushes| ==> pushes[j] == []
  {
    if pushes == [] {
    } else {
      NothingJoined(pushes[1..]);
      assert forall j :: 1 <= j < |pushes| ==> pushes[j] == pushes[1..][j - 1];
    }
  }

  /** The tail is reported truncated without having lost a byte exactly when everything pushed came in
      one push of just the limit. */
  lemma FalseAlarmExactly(pushes: seq<Bytes>, limit: nat)
    requires limit > 0
    ensures Oversized(pushes, limit) && |Joined(pushes)| <= limit <==>
              exists k :: 0 <= k < |pushes| && |pushes[k]| == limit && forall j :: 0 <= j < |pushes| && j != k ==>
                  pushes[j] == []
  {
    if Oversized(pushes, limit) && |Joined(pushes)| <= limit {
      var k :| 0 <= k < |pushes| && |pushes[k]| >= limit;
      OneOfThem(pushes, k);
    }
    if exists k :: 0 <= k < |pushes| && |pushes[k]| == limit && forall j :: 0 <= j < |pushes| && j != k ==>
        pushes[j] == [] {
      var k :| 0 <= k < |pushes| && |pushes[k]| == limit && forall j :: 0 <= j < |pushes| && j != k ==> pushes[j] == [];
      OnlyThat(pushes, k);
    }
  }

  /** One push of just the limit: nothing is lost, and truncation is reported. */
  lemma FalseAlarmHappens(push: Bytes)
    requires push != []
    ensures Oversized([push], |push|) && Last(Joined([push]), |push|) == push
  {
    OnlyThat([push], 0);
    assert [push][0] == push;
  }

  lemma {:induction false} OnlyThat(pushes: seq<Bytes>, k: nat)
    requires k < |pushes| && forall j :: 0 <= j < |pushes| && j != k ==> pushes[j] == []
    ensures Joined(pushes) == pushes[k]
  {
    if k == 0 {
      AllNothing(pushes[1..]);
    } else {
      OnlyThat(pushes[1..], k - 1);
      assert pushes[0] == [];
    }
  }

  lemma {:induction false} AllNothing(pushes: seq<Bytes>)
    requires forall j :: 0 <= j < |pushes| ==> pushes[j] == []
    ensures Joined(pushes) == []
  {
    if pushes == [] {
    } else {
      AllNothing(pushes[1..]);
    }
  }

  class BoundedTail {
    const limit: nat
    var bytes: Bytes
    var truncated: bool
    ghost var pushes: seq<Bytes>

    /** The tail is the last bytes of everything pushed; it is reported truncated exactly when bytes were
        lost or one push alone reached the limit. */
    ghost predicate Valid()
      reads this
    {
      && bytes == Last(Joined(pushes), limit)
      && (truncated <==> |Joined(pushes)| > limit || Oversized(pushes, limit))
    }

    constructor (limit: nat)
      ensures Valid() && this.limit == limit && pushes == []
    {
      this.limit := limit;
      bytes, truncated, pushes := [], false, [];
    }

    method Push(more: Bytes)
      requires Valid()
      modifies this
      ensures Valid() && pushes == old(pushes) + [more]
    {
      JoinedAppends(pushes, more);
      Pushed(pushes, more, limit);
      LastOfLast(Joined(pushes), more, limit);
      ghost var whole := bytes + more;
      pushes := pushes + [more];
      if |more| >= limit {
        bytes := more[|more| - limit..];
        truncated := true;
        assert bytes == Last(whole, limit);
        return;
      }
      ghost var before, lost := bytes, 0;
      while |bytes| + |more| > limit
        invariant 0 <= lost <= |before| && bytes == before[lost..]
        invariant lost > 0 ==> |bytes| + |more| >= limit
        invariant truncated == (old(truncated) || lost > 0)
        invariant pushes == old(pushes) + [more]
        decreases |bytes|
      {
        bytes := bytes[1..];
        truncated := true;
        lost := lost + 1;
      }
      bytes := bytes + more;
      assert bytes == Last(whole, limit);
    }
  }

  lemma Pushed(pushes: seq<Bytes>, more: Bytes, limit: nat)
    ensures Oversized(pushes + [more], limit) <==> Oversized(pushes, limit) || |more| >= limit
  {
    var all := pushes + [more];
    assert all[|pushes|] == more;
    if Oversized(pushes, limit) {
      var k :| 0 <= k < |pushes| && |pushes[k]| >= limit;
      assert |all[k]| >= limit;
    }
  }

  // ---------- Failures ----------

  datatype ErrorKind = Timeout | Cancelled | SpawnError | OutputError | CleanupError | Backpressure

  datatype Output = Output(ok: bool, errorKind: Option<ErrorKind>, stderr: string)

  datatype Failure = Failure(kind: ErrorKind, diagnostic: string)

  function Appended(target: string, value: string): string {
    if value == "" then target else if target == "" then value else target + "\n" + value
  }

  function RecordFailure(output: Output, failure: Failure): Output {
    Output(false,
           if output.errorKind.None? || output.errorKind == Some(CleanupError) then Some(failure.kind)
               else output.errorKind,
           Appended(output.stderr, failure.diagnostic))
  }

  function RecordAll(output: Output, failures: seq<Failure>): Output {
    if failures == [] then output
        else RecordFailure(RecordAll(output, failures[..|failures| - 1]), failures[|failures| - 1])
  }

  function NotEmpty(texts: seq<string>): seq<string> {
    if texts == [] then []
    else (if texts[0] == "" then [] else [texts[0]]) + NotEmpty(texts[1..])
  }

  /** The texts as lines of one text. */
  function Lines(texts: seq<string>): string {
    if texts == [] then "" else if |texts| == 1 then texts[0] else texts[0] + "\n" + Lines(texts[1..])
  }

  function Diagnostics(failures: seq<Failure>): (texts: seq<string>)
    ensures |texts| == |failures| && forall k :: 0 <= k < |failures| ==> texts[k] == failures[k].diagnostic
  {
    seq(|failures|, k requires 0 <= k < |failures| => failures[k].diagnostic)
  }

  lemma {:induction false} NotEmptyAppends(texts: seq<string>, last: string)
    ensures NotEmpty(texts + [last]) == NotEmpty(texts) + if last == "" then [] else [last]
    ensures forall t :: t in NotEmpty(texts) ==> t != ""
  {
    if texts == [] {
      assert [last][1..] == [];
    } else {
      assert (texts + [last])[1..] == texts[1..] + [last];
      NotEmptyAppends(texts[1..], last);
    }
  }

  lemma {:induction false} LinesAppend(texts: seq<string>, last: string)
    requires forall t :: t in texts ==> t != ""
    ensures Lines(texts + [last]) == if texts == [] then last else Lines(texts) + "\n" + last
    ensures texts != [] ==> Lines(texts) != ""
  {
    if texts == [] {
      assert [last][1..] == [];
    } else {
      assert (texts + [last])[1..] == texts[1..] + [last];
      assert texts[0] in texts;
      assert forall t :: t in texts[1..] ==> t in texts;
      LinesAppend(texts[1..], last);
      if |texts| > 1 {
        assert texts[0] + "\n" + (Lines(texts[1..]) + "\n" + last) == texts[0] + "\n" + Lines(texts[1..]) + "\n" + last;
      } else {
        assert texts == [texts[0]] && texts[1..] + [last] == [last];
      }
    }
  }

  /** Nothing that is said of a failure is lost: what the worker wrote and every diagnostic after it, each
      on its own line and in their order, without the empty ones. */
  lemma {:induction false} DiagnosticsAreKept(output: Output, failures: seq<Failure>)
    ensures RecordAll(output, failures).stderr == Lines(NotEmpty([output.stderr] + Diagnostics(failures)))
  {
    if failures == [] {
      assert [output.stderr] + Diagnostics(failures) == [output.stderr];
    } else {
      var before, last := failures[..|failures| - 1], failures[|failures| - 1].diagnostic;
      DiagnosticsAreKept(output, before);
      var texts := [output.stderr] + Diagnostics(before);
      assert [output.stderr] + Diagnostics(failures) == texts + [last];
      OneMoreLine(texts, last);
    }
  }

  lemma OneMoreLine(texts: seq<string>, last: string)
    ensures Lines(NotEmpty(texts + [last])) == Appended(Lines(NotEmpty(texts)), last)
  {
    NotEmptyAppends(texts, last);
    if last == "" {
      assert NotEmpty(texts) + [] == NotEmpty(texts);
    } else {
      LinesAppend(NotEmpty(texts), last);
    }
  }

  // The first failure that is not about cleanup.
  function Cause(failures: seq<Failure>): (cause: Option<ErrorKind>)
    ensures cause != Some(CleanupError)
    ensures cause.None? <==> forall f :: f in failures ==> f.kind.CleanupError?
  {
    if failures == [] then None
    else if failures[0].kind.CleanupError? then Cause(failures[1..])
    else Some(failures[0].kind)
  }

  lemma {:induction false} CauseAppends(failures: seq<Failure>, last: Failure)
    ensures Cause(failures + [last]) ==
              if Cause(failures).Some? then Cause(failures) else if last.kind.CleanupError? then None
                  else Some(last.kind)
  {
    if failures == [] {
      assert [last][1..] == [];
    } else {
      assert (failures + [last])[1..] == failures[1..] + [last];
      CauseAppends(failures[1..], last);
    }
  }

  /** However many failures are recorded, the one reported is the first that is not about cleanup; a
      cleanup failure is reported only when there is no other. */
  lemma {:induction false} FirstCauseIsReported(output: Output, failures: seq<Failure>)
    requires output.errorKind.None?
    ensures RecordAll(output, failures).errorKind ==
              if failures == [] then None
              else if Cause(failures).Some? then Cause(failures) else Some(CleanupError)
    ensures failures != [] ==> !RecordAll(output, failures).ok
  {
    if failures == [] {
    } else {
      var before, last := failures[..|failures| - 1], failures[|failures| - 1];
      FirstCauseIsReported(output, before);
      CauseAppends(before, last);
      assert failures == before + [last];
    }
  }
}
