/** What becomes of the executor's answers: how a Single ends, and what the outcome of a Batch item shows. */
module OperationOutcomes {
  import opened Options
  import opened OperationRecord
  import opened OperationProtocol
  import opened OperationInvariant
  import opened OperationRegistry
  import OperationPreservation
  import OperationTheorems

  // ---------- The answers an Operation got in a run ----------

  /** What a thread was told: that its start channel broke, what `run` and `stage` came to, what the
      cancellation flag said under the completion lock, and what `commit` came to. */
  datatype Answer =
    | StartBroke
    | WorkAnswered(item: nat, staged: StageResult)
    | FlagRead(item: nat, cancelled: bool)
    | CommitAnswered(item: nat, committed: CommitResult)

  function AnswersTo(c: Cell, a: Action): seq<Answer> {
    match a
    case LoseStart => [StartBroke]
    case RunStep(staged) => [WorkAnswered(0, staged)]
    case CheckStep => [FlagRead(0, c.r.cancelled)]
    case CommitStep(committed) => [CommitAnswered(0, committed)]
    case SubAction(w, step) =>
      if w >= |c.subs| then []
      else
        (match step
         case DoRun(staged) => if c.subs[w].RunItem? then [WorkAnswered(c.subs[w].i, staged)] else []
         case DoCheck => if c.subs[w].CheckItem? then [FlagRead(c.subs[w].i, c.r.cancelled)] else []
         case DoCommit(committed) => if c.subs[w].CommitItem? then [CommitAnswered(c.subs[w].i, committed)] else []
         case _ => [])
    case _ => []
  }

  function AnswersIn(s: Registry, step: Step, id: OpId): seq<Answer> {
    if step.Act? && step.id == id && id in s.cells then AnswersTo(s.cells[id], step.action) else []
  }

  /** The answers given to Operation `id` in the first `n` steps of a run. */
  function Answers(run: seq<Registry>, steps: seq<Step>, id: OpId, n: nat): seq<Answer>
    requires n <= |steps| < |run|
  {
    if n == 0 then []
    else Answers(run, steps, id, n - 1) + AnswersIn(run[n - 1], steps[n - 1], id)
  }

  /** How far the work on an item has come: nothing answered, outputs staged, or done with a result, after
      `commit` was asked or before. */
  datatype Work = Untouched | StagedAs(artifacts: seq<Artifact>) | Done(result: ItemResult, committing: bool)

  function WorkAfter(work: Work, answer: Answer, item: nat): Work {
    match answer
    case StartBroke => work
    case WorkAnswered(i, staged) =>
      if i != item then work
      else if staged.Staged? then StagedAs(staged.artifacts)
      else Done(ItemErr(staged.error), false)
    case FlagRead(i, cancelled) =>
      if i == item && cancelled then Done(ItemErr(CANCELLED_ERROR), false) else work
    case CommitAnswered(i, committed) =>
      if i != item then work
      else if committed.CommitFailed? then Done(ItemErr(committed.error), true)
      else Done(ItemOk(if work.StagedAs? then work.artifacts else []), true)
  }

  function WorkOf(answers: seq<Answer>, item: nat): Work {
    if answers == [] then Untouched
    else WorkAfter(WorkOf(answers[..|answers| - 1], item), answers[|answers| - 1], item)
  }

  lemma WorkGoesOn(answers: seq<Answer>, more: seq<Answer>, item: nat)
    requires |more| <= 1
    ensures WorkOf(answers + more, item) == if more == [] then WorkOf(answers, item)
                                            else WorkAfter(WorkOf(answers, item), more[0], item)
  {
    if more == [] {
      assert answers + more == answers;
    } else {
      assert (answers + more)[..|answers|] == answers;
    }
  }

  // ---------- A Single ----------

  /** How a Single must end whose worker is gone: with what became of its work; or, if none was ever
      begun, with the loss of its start, unless a cancel came first. */
  function SingleEnd(work: Work, startBroke: bool, accepted: bool): (OperationState, Option<string>) {
    if work.Done? then
      match work.result
      case ItemOk(_) => (Succeeded, None)
      case ItemErr(error) =>
        if error.cancelled && !work.committing then (Cancelled, None) else (Failed, Some(error.log))
    else if startBroke && !accepted then (Failed, Some(NEVER_STARTED))
    else (Cancelled, None)
  }

  predicate SingleEnded(c: Cell, work: Work, startBroke: bool) {
    && (c.r.state, c.r.log) == SingleEnd(work, startBroke, c.r.cancelled)
    && (c.r.state.Succeeded? ==> work.Done? && work.result == ItemOk(c.r.singleArtifacts))
  }

  predicate SingleFollows(c: Cell, work: Work, startBroke: bool) {
    && (c.r.state.Failed? || c.r.log.None?)
    && match c.worker
       case AwaitStart => work.Untouched? && !startBroke
       case StartLost => work.Untouched? && startBroke
       case TakeSingle => work.Untouched? && !startBroke
       case RunSingle => work.Untouched? && !startBroke
       case StagedSingle(artifacts) => work == StagedAs(artifacts) && !startBroke
       case CheckSingle(artifacts) => work == StagedAs(artifacts) && !startBroke
       case CommitSingle(artifacts) => work == StagedAs(artifacts) && !startBroke
       case WriteSingle(artifacts, _) => work == Done(ItemOk(artifacts), true)
       case CancelPending(_) => work.Done? && work.result.ItemErr? && work.result.error.cancelled && !work.committing
       case FailPending(log, _) =>
         && work.Done? && work.result.ItemErr? && log == work.result.error.log
         && (work.committing || !work.result.error.cancelled)
       case RetainPending(_) => SingleEnded(c, work, startBroke)
       case UnlockPending => SingleEnded(c, work, startBroke)
       case Exited => SingleEnded(c, work, startBroke)
       case _ => true
  }

  ghost predicate SingleOk(c: Cell, answers: seq<Answer>) {
    c.r.shape.Single? ==> SingleFollows(c, WorkOf(answers, 0), StartBroke in answers)
  }

  // The steps of the worker that come to something: an answer, the write, the start.
  predicate SingleStep(a: Action) {
    a.LoseStart? || a.Execute? || a.RunStep? || a.CheckStep? || a.CommitStep? || a.WriteStep?
  }

  lemma SingleAnswered(c: Cell, a: Action, work: Work, startBroke: bool)
    requires Control(c) && c.r.shape.Single? && Enabled(c, a)
    requires a.LoseStart? || a.RunStep? || a.CheckStep? || a.CommitStep?
    requires SingleFollows(c, work, startBroke)
    ensures AnswersTo(c, a) != []
    ensures SingleFollows(Apply(c, a), WorkAfter(work, AnswersTo(c, a)[0], 0), startBroke || a.LoseStart?)
  {}

  lemma SingleWritten(c: Cell, a: Action, work: Work, startBroke: bool)
    requires Control(c) && c.r.shape.Single? && Enabled(c, a) && (a.Execute? || a.WriteStep?)
    requires SingleFollows(c, work, startBroke)
    ensures SingleFollows(Apply(c, a), work, startBroke)
  {}

  lemma SingleMoved(c: Cell, a: Action, work: Work, startBroke: bool)
    requires Control(c) && c.r.shape.Single? && Enabled(c, a) && !WouldPanic(c, a)
    requires !SingleStep(a) && !a.SubAction? && !OperationPreservation.CancelAction(a) && !a.FinishStep?
    requires SingleFollows(c, work, startBroke)
    ensures SingleFollows(Apply(c, a), work, startBroke)
  {}

  lemma SingleFinishFollows(c: Cell, work: Work, startBroke: bool)
    requires Control(c) && c.r.shape.Single? && SingleFollows(c, work, startBroke)
    requires c.worker.CancelPending? || c.worker.FailPending? || c.worker.StartLost?
    ensures SingleFollows(WorkerFinish(c), work, startBroke)
  {}

  lemma SingleCancelFollows(c: Cell, id: nat, work: Work, startBroke: bool)
    requires Control(c) && c.r.shape.Single? && SingleFollows(c, work, startBroke)
    ensures SingleFollows(CancelRecord(c, id), work, startBroke)
  {}

  lemma SingleCancelMoveFollows(c: Cell, a: Action, work: Work, startBroke: bool)
    requires c.r.shape.Single? && SingleFollows(c, work, startBroke)
    requires Enabled(c, a) && OperationPreservation.CancelMove(a)
    ensures SingleFollows(Apply(c, a), work, startBroke)
  {}

  lemma SingleQuietFollows(c: Cell, a: Action, work: Work, startBroke: bool)
    requires Control(c) && c.r.shape.Single? && Enabled(c, a) && !WouldPanic(c, a) && !a.SubAction?
    requires !(a.LoseStart? || a.RunStep? || a.CheckStep? || a.CommitStep?)
    requires SingleFollows(c, work, startBroke)
    ensures AnswersTo(c, a) == [] && SingleFollows(Apply(c, a), work, startBroke)
  {
    if a.CancelWrite? {
      SingleCancelFollows(c, a.c, work, startBroke);
    } else if OperationPreservation.CancelMove(a) {
      SingleCancelMoveFollows(c, a, work, startBroke);
    } else if a.FinishStep? {
      SingleFinishFollows(c, work, startBroke);
    } else if SingleStep(a) {
      SingleWritten(c, a, work, startBroke);
    } else {
      SingleMoved(c, a, work, startBroke);
    }
  }

  lemma SingleActionOk(c: Cell, a: Action, answers: seq<Answer>)
    requires Control(c) && Enabled(c, a) && !WouldPanic(c, a) && !a.SubAction?
    requires SingleOk(c, answers) && c.r.shape.Single?
    ensures SingleOk(Apply(c, a), answers + AnswersTo(c, a))
  {
    var work, startBroke := WorkOf(answers, 0), StartBroke in answers;
    if a.LoseStart? || a.RunStep? || a.CheckStep? || a.CommitStep? {
      SingleAnswered(c, a, work, startBroke);
      WorkGoesOn(answers, AnswersTo(c, a), 0);
    } else {
      SingleQuietFollows(c, a, work, startBroke);
      assert answers + [] == answers;
    }
  }

  // ---------- The items of a Batch ----------

  /** The outcome of an item shows what was answered for it: its artifacts, or its error's log; and its model. */
  predicate OutcomeShows(o: Outcome, models: seq<string>, work: Work) {
    && work.Done? && o.itemIndex < |models| && o.model == models[o.itemIndex]
    && match work.result
       case ItemOk(artifacts) => o.status.ItemSucceeded? && o.artifacts == artifacts && o.log == None
       case ItemErr(error) => o.status.ItemFailed? && o.artifacts == [] && o.log == Some(error.log)
  }

  predicate SubFollows(pc: SubPc, work: Work) {
    match pc
    case RunItem(_) => work.Untouched?
    case StagedItem(_, artifacts) => work == StagedAs(artifacts)
    case CheckItem(_, artifacts) => work == StagedAs(artifacts)
    case CommitItem(_, artifacts) => work == StagedAs(artifacts)
    case WarnItem(_, artifacts, _) => work == Done(ItemOk(artifacts), true)
    case Settle(_, result, _) => work.Done? && work.result == result
    case _ => true
  }

  predicate SubOk(pc: SubPc, answers: seq<Answer>) {
    Holds(pc) ==> SubFollows(pc, WorkOf(answers, pc.i))
  }

  predicate OutcomeOk(o: Outcome, models: seq<string>, answers: seq<Answer>) {
    OutcomeShows(o, models, WorkOf(answers, o.itemIndex))
  }

  // A settled item is in no thread's hands, and was settled with what was answered for it.
  ghost predicate SettledOk(e: Event, subs: seq<SubPc>, begun: seq<nat>, answers: seq<Answer>) {
    e.ItemSettled? ==>
      && HoldCount(subs, e.item) == 0 && Occurrences(begun, e.item) > 0
      && WorkOf(answers, e.item).Done? && WorkOf(answers, e.item).result == e.result
  }

  ghost predicate ItemsOk(subs: seq<SubPc>, begun: seq<nat>, outcomes: seq<Outcome>, models: seq<string>,
                          h: seq<Event>, answers: seq<Answer>)
  {
    && (forall w :: 0 <= w < |subs| ==> SubOk(subs[w], answers))
    && (forall i: nat :: Occurrences(begun, i) == 0 ==> WorkOf(answers, i).Untouched?)
    && (forall k :: 0 <= k < |outcomes| ==> OutcomeOk(outcomes[k], models, answers))
    && (forall e :: e in h ==> SettledOk(e, subs, begun, answers))
  }

  ghost predicate BatchOk(c: Cell, answers: seq<Answer>) {
    c.r.shape.Batch? ==> ItemsOk(c.subs, c.begun, c.r.outcomes, c.r.models, c.history, answers)
  }

  // The item a thread holds is held by no other, settled by none, and has no outcome.
  lemma HeldAlone(c: Cell, w: nat)
    requires Counts(c) && w < |c.subs| && Holds(c.subs[w])
    ensures HoldCount(c.subs, c.subs[w].i) == 1 && Occurrences(c.begun, c.subs[w].i) == 1
    ensures forall v :: 0 <= v < |c.subs| && v != w && Holds(c.subs[v]) ==> c.subs[v].i != c.subs[w].i
    ensures forall k :: 0 <= k < |c.r.outcomes| ==> c.r.outcomes[k].itemIndex != c.subs[w].i
  {
    var i := c.subs[w].i;
    OperationPreservation.CountsInclude(c.subs, w);
    assert Claimed(c.begun, c.subs, c.abandoned, c.next, |c.r.models|, i);
    assert Conserved(c.begun, c.subs, c.r.outcomes, c.discarded, i);
    OperationPreservation.CountsAt(c.subs, w, SubExited, i);
    forall v | 0 <= v < |c.subs| && v != w && Holds(c.subs[v])
      ensures c.subs[v].i != i
    {
      OperationPreservation.CountsInclude(c.subs[w := SubExited], v);
    }
    forall k | 0 <= k < |c.r.outcomes|
      ensures c.r.outcomes[k].itemIndex != i
    {
      OperationTheorems.OutcomeCounted(c.r.outcomes, k);
    }
  }

  // An answer about one item leaves the work on the others as it is.
  predicate Concerns(answers: seq<Answer>, item: nat) {
    && |answers| <= 1
    && forall k :: 0 <= k < |answers| ==> !answers[k].StartBroke? && answers[k].item == item
  }

  lemma OthersUntouched(answers: seq<Answer>, more: seq<Answer>, item: nat, other: nat)
    requires Concerns(more, item) && other != item
    ensures WorkOf(answers + more, other) == WorkOf(answers, other)
  {
    WorkGoesOn(answers, more, other);
  }

  // A thread that goes on with the item it holds, whatever it was answered.
  lemma HolderMoves(c: Cell, w: nat, pc: SubPc, answers: seq<Answer>, more: seq<Answer>)
    requires Counts(c) && ItemsOk(c.subs, c.begun, c.r.outcomes, c.r.models, c.history, answers)
    requires w < |c.subs| && Holds(c.subs[w]) && Holds(pc) && pc.i == c.subs[w].i
    requires Concerns(more, pc.i) && SubFollows(pc, WorkOf(answers + more, pc.i))
    ensures ItemsOk(c.subs[w := pc], c.begun, c.r.outcomes, c.r.models, c.history, answers + more)
  {
    var i, moved := pc.i, c.subs[w := pc];
    HeldAlone(c, w);
    forall v | 0 <= v < |moved|
      ensures SubOk(moved[v], answers + more)
    {
      if v != w && Holds(moved[v]) {
        assert SubOk(c.subs[v], answers);
        OthersUntouched(answers, more, i, moved[v].i);
      }
    }
    forall j: nat | Occurrences(c.begun, j) == 0
      ensures WorkOf(answers + more, j).Untouched?
    {
      OthersUntouched(answers, more, i, j);
    }
    forall k | 0 <= k < |c.r.outcomes|
      ensures OutcomeOk(c.r.outcomes[k], c.r.models, answers + more)
    {
      assert OutcomeOk(c.r.outcomes[k], c.r.models, answers);
      OthersUntouched(answers, more, i, c.r.outcomes[k].itemIndex);
    }
    forall e | e in c.history
      ensures SettledOk(e, moved, c.begun, answers + more)
    {
      assert SettledOk(e, c.subs, c.begun, answers);
      if e.ItemSettled? {
        OthersUntouched(answers, more, i, e.item);
        OperationPreservation.CountsAt(c.subs, w, pc, e.item);
      }
    }
  }

  // A thread that holds nothing before or after its step.
  lemma IdlerMoves(c: Cell, w: nat, pc: SubPc, answers: seq<Answer>)
    requires ItemsOk(c.subs, c.begun, c.r.outcomes, c.r.models, c.history, answers)
    requires w < |c.subs| && !Holds(c.subs[w]) && !Holds(pc)
    ensures ItemsOk(c.subs[w := pc], c.begun, c.r.outcomes, c.r.models, c.history, answers)
  {
    forall e | e in c.history
      ensures SettledOk(e, c.subs[w := pc], c.begun, answers)
    {
      assert SettledOk(e, c.subs, c.begun, answers);
      if e.ItemSettled? {
        OperationPreservation.CountsAt(c.subs, w, pc, e.item);
      }
    }
  }

  lemma ItemBegins(c: Cell, w: nat, answers: seq<Answer>)
    requires Counts(c) && ItemsOk(c.subs, c.begun, c.r.outcomes, c.r.models, c.history, answers)
    requires w < |c.subs| && c.subs[w].Begin?
    ensures var i := c.subs[w].i;
            ItemsOk(c.subs[w := RunItem(i)], c.begun + [i], c.r.outcomes, c.r.models, c.history + [ItemBegun(i)],
                    answers)
  {
    var i := c.subs[w].i;
    OperationPreservation.ClaimIsFresh(c, w);
    forall j: nat
      ensures Occurrences(c.begun + [i], j) == Occurrences(c.begun, j) + One(i == j)
    {
      OperationPreservation.OccursOnceMore(c.begun, i, j);
    }
    forall e | e in c.history + [ItemBegun(i)]
      ensures SettledOk(e, c.subs[w := RunItem(i)], c.begun + [i], answers)
    {
      if e.ItemSettled? {
        assert SettledOk(e, c.subs, c.begun, answers);
        OperationPreservation.CountsAt(c.subs, w, RunItem(i), e.item);
      }
    }
  }

  lemma ItemSettles(c: Cell, w: nat, pc: SubPc, outcomes: seq<Outcome>, answers: seq<Answer>)
    requires Counts(c) && ItemsOk(c.subs, c.begun, c.r.outcomes, c.r.models, c.history, answers)
    requires w < |c.subs| && c.subs[w].Settle? && !Holds(pc)
    requires outcomes == c.r.outcomes
             || (c.r.outcomes < outcomes && |outcomes| == |c.r.outcomes| + 1
                 && OutcomeOk(outcomes[|c.r.outcomes|], c.r.models, answers))
    ensures ItemsOk(c.subs[w := pc], c.begun, outcomes, c.r.models,
                    c.history + [ItemSettled(c.subs[w].i, c.subs[w].result)], answers)
  {
    var settled := ItemSettled(c.subs[w].i, c.subs[w].result);
    HeldAlone(c, w);
    assert SubOk(c.subs[w], answers);
    forall e | e in c.history + [settled]
      ensures SettledOk(e, c.subs[w := pc], c.begun, answers)
    {
      if e.ItemSettled? {
        OperationPreservation.CountsAt(c.subs, w, pc, e.item);
        assert e in c.history ==> SettledOk(e, c.subs, c.begun, answers);
      }
    }
  }

  // ---------- Each step of a scoped thread ----------

  lemma RunFollows(c: Cell, w: nat, staged: StageResult, answers: seq<Answer>)
    requires SubEnabled(c, w, DoRun(staged)) && SubOk(c.subs[w], answers)
    ensures SubFollows(SubRun(c, w, staged).subs[w], WorkOf(answers + [WorkAnswered(c.subs[w].i, staged)], c.subs[w].i))
  {
    WorkGoesOn(answers, [WorkAnswered(c.subs[w].i, staged)], c.subs[w].i);
  }

  lemma CheckFollows(c: Cell, w: nat, answers: seq<Answer>)
    requires SubEnabled(c, w, DoCheck) && SubOk(c.subs[w], answers)
    ensures SubFollows(SubCheck(c, w).subs[w], WorkOf(answers + [FlagRead(c.subs[w].i, c.r.cancelled)], c.subs[w].i))
  {
    WorkGoesOn(answers, [FlagRead(c.subs[w].i, c.r.cancelled)], c.subs[w].i);
  }

  lemma CommitFollows(c: Cell, w: nat, committed: CommitResult, answers: seq<Answer>)
    requires SubEnabled(c, w, DoCommit(committed)) && SubOk(c.subs[w], answers)
    ensures SubFollows(SubCommit(c, w, committed).subs[w],
                       WorkOf(answers + [CommitAnswered(c.subs[w].i, committed)], c.subs[w].i))
  {
    WorkGoesOn(answers, [CommitAnswered(c.subs[w].i, committed)], c.subs[w].i);
  }

  lemma HolderStepOk(c: Cell, w: nat, step: SubStep, answers: seq<Answer>)
    requires Counts(c) && c.r.shape.Batch? && BatchOk(c, answers) && SubEnabled(c, w, step)
    requires step.DoRun? || step.DoLock? || step.DoCheck? || step.DoWarn?
    ensures BatchOk(SubApply(c, w, step), answers + AnswersTo(c, SubAction(w, step)))
  {
    assert SubOk(c.subs[w], answers);
    var more := AnswersTo(c, SubAction(w, step));
    WorkGoesOn(answers, more, c.subs[w].i);
    if step.DoRun? {
      RunFollows(c, w, step.staged, answers);
    } else if step.DoCheck? {
      CheckFollows(c, w, answers);
    }
    HolderMoves(c, w, SubApply(c, w, step).subs[w], answers, more);
  }

  lemma CommitStepOk(c: Cell, w: nat, committed: CommitResult, answers: seq<Answer>)
    requires Counts(c) && c.r.shape.Batch? && BatchOk(c, answers) && SubEnabled(c, w, DoCommit(committed))
    ensures BatchOk(SubCommit(c, w, committed), answers + [CommitAnswered(c.subs[w].i, committed)])
  {
    assert SubOk(c.subs[w], answers);
    CommitFollows(c, w, committed, answers);
    HolderMoves(c, w, SubCommit(c, w, committed).subs[w], answers, [CommitAnswered(c.subs[w].i, committed)]);
  }

  lemma SettleStepOk(c: Cell, w: nat, answers: seq<Answer>)
    requires Counts(c) && c.r.shape.Batch? && BatchOk(c, answers)
    requires SubEnabled(c, w, DoSettle) && !WouldPanic(c, SubAction(w, DoSettle)) && c.present
    ensures BatchOk(SubSettle(c, w), answers)
  {
    assert SubOk(c.subs[w], answers);
    OperationPreservation.HeldItemIsBegun(c, w);
    ItemSettles(c, w, SubSettle(c, w).subs[w], SubSettle(c, w).r.outcomes, answers);
  }

  lemma IdleStepOk(c: Cell, w: nat, step: SubStep, answers: seq<Answer>)
    requires Counts(c) && c.r.shape.Batch? && BatchOk(c, answers)
    requires SubEnabled(c, w, step) && !WouldPanic(c, SubAction(w, step))
    requires step.DoReadFlag? || step.DoFetch? || step.DoBegin? || step.DoUnlock?
    ensures BatchOk(SubApply(c, w, step), answers)
  {
    if step.DoBegin? && c.present && CanBegin(c.r) {
      ItemBegins(c, w, answers);
    } else {
      IdlerMoves(c, w, SubApply(c, w, step).subs[w], answers);
    }
  }

  lemma SubStepOk(c: Cell, w: nat, step: SubStep, answers: seq<Answer>)
    requires Phase(c) && Counts(c) && BatchOk(c, answers)
    requires SubEnabled(c, w, step) && !WouldPanic(c, SubAction(w, step))
    ensures BatchOk(SubApply(c, w, step), answers + AnswersTo(c, SubAction(w, step)))
  {
    assert c.r.shape.Batch? && c.present;
    assert answers + [] == answers;
    if step.DoCommit? {
      CommitStepOk(c, w, step.committed, answers);
    } else if step.DoSettle? {
      SettleStepOk(c, w, answers);
    } else if step.DoReadFlag? || step.DoFetch? || step.DoBegin? || step.DoUnlock? {
      IdleStepOk(c, w, step, answers);
    } else {
      HolderStepOk(c, w, step, answers);
    }
  }

  // ---------- The other threads ----------

  // What a step of the worker or of a canceller may do to a Batch's items: log something else.
  predicate ItemsAlone(c: Cell, n: Cell) {
    && n.subs == c.subs && n.begun == c.begun && n.r.outcomes == c.r.outcomes && n.r.models == c.r.models
    && n.r.shape == c.r.shape
    && c.history <= n.history && forall k :: |c.history| <= k < |n.history| ==> !n.history[k].ItemSettled?
  }

  lemma CancelLeavesItems(c: Cell, id: nat)
    ensures ItemsAlone(c, CancelRecord(c, id))
  {}

  lemma FinishLeavesItems(c: Cell)
    ensures ItemsAlone(c, WorkerFinish(c)) && ItemsAlone(c, Finish(c, SucceedBatch(c.r), false))
  {}

  lemma WorkerLeavesItems(c: Cell, a: Action)
    requires Enabled(c, a) && !WouldPanic(c, a) && !a.SubAction? && !a.ReadBatchStep?
    requires !a.CancelWrite? && !a.FinishStep? && !a.SucceedBatchStep?
    ensures ItemsAlone(c, Apply(c, a))
  {}

  lemma OtherActionLeavesItems(c: Cell, a: Action)
    requires Enabled(c, a) && !WouldPanic(c, a) && !a.SubAction? && !a.ReadBatchStep?
    ensures ItemsAlone(c, Apply(c, a))
  {
    if a.CancelWrite? {
      CancelLeavesItems(c, a.c);
    } else if a.FinishStep? || a.SucceedBatchStep? {
      FinishLeavesItems(c);
    } else {
      WorkerLeavesItems(c, a);
    }
  }

  lemma ItemsLeftAlone(c: Cell, n: Cell, answers: seq<Answer>)
    requires BatchOk(c, answers) && ItemsAlone(c, n)
    ensures BatchOk(n, answers)
  {
    if c.r.shape.Batch? {
      forall e | e in n.history
        ensures SettledOk(e, n.subs, n.begun, answers)
      {
        var k :| 0 <= k < |n.history| && n.history[k] == e;
        if k < |c.history| {
          assert c.history[k] == e;
          assert SettledOk(e, c.subs, c.begun, answers);
        }
      }
    }
  }

  lemma LaunchOk(c: Cell, answers: seq<Answer>)
    requires Inv(c) && BatchOk(c, answers) && c.worker.ReadBatch?
    ensures BatchOk(WorkerReadBatch(c), answers)
  {
    var n := WorkerReadBatch(c);
    forall e | e in n.history
      ensures SettledOk(e, n.subs, n.begun, answers)
    {
      assert SettledOk(e, c.subs, c.begun, answers);
    }
  }

  lemma OtherBatchAction(c: Cell, a: Action, answers: seq<Answer>)
    requires Inv(c) && BatchOk(c, answers) && c.r.shape.Batch?
    requires Enabled(c, a) && !WouldPanic(c, a) && !a.SubAction? && !a.ReadBatchStep?
    ensures BatchOk(Apply(c, a), answers + AnswersTo(c, a))
  {
    OtherActionLeavesItems(c, a);
    ItemsLeftAlone(c, Apply(c, a), answers);
    if AnswersTo(c, a) == [] {
      assert answers + [] == answers;
    } else {
      assert AnswersTo(c, a) == [StartBroke];
      OnlyStartBroke(Apply(c, a), answers);
    }
  }

  lemma OnlyStartBroke(c: Cell, answers: seq<Answer>)
    requires BatchOk(c, answers)
    ensures BatchOk(c, answers + [StartBroke])
  {
    forall item: nat
      ensures WorkOf(answers + [StartBroke], item) == WorkOf(answers, item)
    {
      WorkGoesOn(answers, [StartBroke], item);
    }
    if c.r.shape.Batch? {
      forall w | 0 <= w < |c.subs|
        ensures SubOk(c.subs[w], answers + [StartBroke])
      {
        assert SubOk(c.subs[w], answers);
      }
      forall k | 0 <= k < |c.r.outcomes|
        ensures OutcomeOk(c.r.outcomes[k], c.r.models, answers + [StartBroke])
      {
        assert OutcomeOk(c.r.outcomes[k], c.r.models, answers);
      }
      forall e | e in c.history
        ensures SettledOk(e, c.subs, c.begun, answers + [StartBroke])
      {
        assert SettledOk(e, c.subs, c.begun, answers);
      }
    }
  }

  lemma ActionFollows(c: Cell, a: Action, answers: seq<Answer>)
    requires Inv(c) && SingleOk(c, answers) && BatchOk(c, answers) && Enabled(c, a) && !WouldPanic(c, a)
    ensures SingleOk(Apply(c, a), answers + AnswersTo(c, a)) && BatchOk(Apply(c, a), answers + AnswersTo(c, a))
  {
    ShapeStays(c, a);
    if c.r.shape.Single? {
      assert !a.SubAction?;
      SingleActionOk(c, a, answers);
    } else if a.SubAction? {
      SubStepOk(c, a.w, a.step, answers);
    } else if a.ReadBatchStep? {
      LaunchOk(c, answers);
      assert answers + [] == answers;
    } else {
      OtherBatchAction(c, a, answers);
    }
  }

  lemma ShapeStays(c: Cell, a: Action)
    requires Enabled(c, a) && !WouldPanic(c, a)
    ensures Apply(c, a).r.shape == c.r.shape
  {
    if a.SubAction? {
      SubShapeStays(c, a.w, a.step);
    } else if !a.ReadBatchStep? {
      OtherActionLeavesItems(c, a);
    }
  }

  lemma SubShapeStays(c: Cell, w: nat, step: SubStep)
    requires SubEnabled(c, w, step) && !WouldPanic(c, SubAction(w, step))
    ensures SubApply(c, w, step).r.shape == c.r.shape
  {}

  // ---------- Every run ----------

  ghost predicate FollowsAnswers(c: Cell, answers: seq<Answer>) {
    SingleOk(c, answers) && BatchOk(c, answers)
  }

  // What a step leaves of the cell of `id`, its place in the registry apart.
  lemma StepOfCell(s: Registry, step: Step, id: OpId)
    requires CanStep(s, step) && id in s.cells
    ensures id in TakeStep(s, step).cells
    ensures var n := TakeStep(s, step).cells[id];
            n.(present := true)
            == (if step.Act? && step.id == id then Apply(s.cells[id], step.action) else s.cells[id]).(present := true)
  {}

  lemma PresenceIsNoAnswer(c: Cell, n: Cell, answers: seq<Answer>)
    requires FollowsAnswers(c, answers) && n.(present := true) == c.(present := true)
    ensures FollowsAnswers(n, answers)
  {}

  lemma SubmittedFollows(s: Registry, step: Step)
    requires CanStep(s, step) && step.Submit?
    ensures step.id in TakeStep(s, step).cells && FollowsAnswers(TakeStep(s, step).cells[step.id], [])
  {}

  lemma NewCell(s: Registry, step: Step, id: OpId)
    requires CanStep(s, step) && id !in s.cells && id in TakeStep(s, step).cells
    ensures step.Submit? && step.id == id && FollowsAnswers(TakeStep(s, step).cells[id], [])
  {
    if step.Submit? {
      SubmittedFollows(s, step);
    }
  }

  lemma NextFollows(s: Registry, step: Step, id: OpId, answers: seq<Answer>)
    requires CanStep(s, step) && id in s.cells && Inv(s.cells[id]) && FollowsAnswers(s.cells[id], answers)
    ensures id in TakeStep(s, step).cells
    ensures FollowsAnswers(TakeStep(s, step).cells[id],
                     answers + if step.Act? && step.id == id then AnswersTo(s.cells[id], step.action) else [])
  {
    StepOfCell(s, step, id);
    assert answers + [] == answers;
    if step.Act? && step.id == id {
      ActionFollows(s.cells[id], step.action, answers);
      PresenceIsNoAnswer(Apply(s.cells[id], step.action), TakeStep(s, step).cells[id],
                         answers + AnswersTo(s.cells[id], step.action));
    } else {
      PresenceIsNoAnswer(s.cells[id], TakeStep(s, step).cells[id], answers);
    }
  }

  lemma OneMoreFollows(s: Registry, step: Step, t: Registry, id: OpId, answers: seq<Answer>)
    requires CanStep(s, step) && t == TakeStep(s, step) && CellsOk(s.cells)
    requires if id in s.cells then FollowsAnswers(s.cells[id], answers) else answers == []
    ensures var more := AnswersIn(s, step, id);
            if id in t.cells then FollowsAnswers(t.cells[id], answers + more) else answers + more == []
  {
    if id in s.cells {
      assert Inv(s.cells[id]);
      NextFollows(s, step, id, answers);
    } else if id in t.cells {
      NewCell(s, step, id);
      assert answers + [] == [];
    }
  }

  lemma {:induction false} RunFollowsAnswers(run: seq<Registry>, steps: seq<Step>, id: OpId, k: nat)
    requires IsRun(run, steps) && k < |run|
    ensures var answers := Answers(run, steps, id, k);
            if id in run[k].cells then FollowsAnswers(run[k].cells[id], answers) else answers == []
  {
    if k == 0 {
    } else {
      RunFollowsAnswers(run, steps, id, k - 1);
      RunKeepsInv(run, steps, k - 1);
      OneMoreFollows(run[k - 1], steps[k - 1], run[k], id, Answers(run, steps, id, k - 1));
    }
  }

  // ---------- The main results ----------

  /** How a Single ends is fixed by what it was answered: Succeeded exactly when its commit succeeded, with
      the artifacts that were staged; Failed with the error's log when the work failed for a reason of its
      own, or the commit for any, or the start was lost before a cancel; Cancelled when the work or the flag
      said so, or a cancel came before any work. */
  lemma SingleEnding(run: seq<Registry>, steps: seq<Step>, id: OpId)
    requires IsRun(run, steps) && id in run[|steps|].cells
    requires run[|steps|].cells[id].r.shape.Single? && run[|steps|].cells[id].worker.Exited?
    ensures var c := run[|steps|].cells[id];
            var answers := Answers(run, steps, id, |steps|);
            && (c.r.state, c.r.log) == SingleEnd(WorkOf(answers, 0), StartBroke in answers, CancelAccepted(c.history))
            && (c.r.state.Succeeded? ==> WorkOf(answers, 0) == Done(ItemOk(c.r.singleArtifacts), true))
  {
    RunFollowsAnswers(run, steps, id, |steps|);
    RunKeepsInv(run, steps, |steps|);
    SingleCellEnds(run[|steps|].cells[id], Answers(run, steps, id, |steps|));
  }

  lemma SingleCellEnds(c: Cell, answers: seq<Answer>)
    requires Books(c) && SingleOk(c, answers) && c.r.shape.Single? && c.worker.Exited?
    ensures (c.r.state, c.r.log) == SingleEnd(WorkOf(answers, 0), StartBroke in answers, CancelAccepted(c.history))
    ensures c.r.state.Succeeded? ==> WorkOf(answers, 0) == Done(ItemOk(c.r.singleArtifacts), true)
  {
    SuccessCommits(answers, 0);
  }

  // Only a commit makes a result of artifacts.
  lemma {:induction false} SuccessCommits(answers: seq<Answer>, item: nat)
    ensures WorkOf(answers, item).Done? && WorkOf(answers, item).result.ItemOk? ==> WorkOf(answers, item).committing
  {
    if answers == [] {
    } else {
      SuccessCommits(answers[..|answers| - 1], item);
    }
  }

  /** Each outcome of a Batch shows what was answered for its item: the staged artifacts if the commit
      succeeded, the log of the error otherwise, and the item's own model. */
  lemma OutcomesShowAnswers(run: seq<Registry>, steps: seq<Step>, id: OpId, k: nat)
    requires IsRun(run, steps) && id in run[|steps|].cells && run[|steps|].cells[id].r.shape.Batch?
    requires k < |run[|steps|].cells[id].r.outcomes|
    ensures var c := run[|steps|].cells[id];
            OutcomeShows(c.r.outcomes[k], c.r.models,
                         WorkOf(Answers(run, steps, id, |steps|), c.r.outcomes[k].itemIndex))
  {
    RunFollowsAnswers(run, steps, id, |steps|);
    var r := run[|steps|].cells[id].r;
    assert OutcomeOk(r.outcomes[k], r.models, Answers(run, steps, id, |steps|));
  }

  /** An item is settled with what was answered for it, whether or not its outcome is shown: so the failure
      that a cancelled Batch reports is one the executor answered. */
  lemma SettledAsAnswered(run: seq<Registry>, steps: seq<Step>, id: OpId, item: nat, result: ItemResult)
    requires IsRun(run, steps) && id in run[|steps|].cells && run[|steps|].cells[id].r.shape.Batch?
    requires ItemSettled(item, result) in run[|steps|].cells[id].history
    ensures var work := WorkOf(Answers(run, steps, id, |steps|), item); work.Done? && work.result == result
  {
    RunFollowsAnswers(run, steps, id, |steps|);
    var c := run[|steps|].cells[id];
    assert SettledOk(ItemSettled(item, result), c.subs, c.begun, Answers(run, steps, id, |steps|));
  }
}
