/** Admission to the bounded set of worker processes: permits, waiting callers and their counters. One
    step is one stretch under the supervisor's lock. */
module ProcessAdmission {
  import opened Options

  const MAX_PROCESS_ADMISSION_WAITERS: nat := 32

  type Caller = nat

  datatype Refusal = Backpressure | Cancelled

  /** `holders` and `blocked` are who holds a permit and who waits; the code keeps only the counters. */
  datatype Supervisor = Supervisor(
    capacity: nat, active: nat, waiters: nat, holders: set<Caller>, blocked: set<Caller>, panicked: bool)

  function New(capacity: nat): Supervisor {
    Supervisor(if capacity < 1 then 1 else capacity, 0, 0, {}, {}, false)
  }

  // checked_sub(1).expect(..)
  function OneWaiterLess(s: Supervisor, caller: Caller): Supervisor {
    if s.waiters == 0 then s.(panicked := true)
    else s.(waiters := s.waiters - 1, blocked := s.blocked - {caller})
  }

  function Admit(s: Supervisor, caller: Caller, cancelled: bool): (Supervisor, Option<Refusal>) {
    if cancelled then (s, Some(Cancelled))
    else (s.(active := s.active + 1, holders := s.holders + {caller}), None)
  }

  // The loop of a caller that waits, up to its next wait; `None` means it waits or holds a permit.
  function Recheck(s: Supervisor, caller: Caller, cancelled: bool, expired: bool): (Supervisor, Option<Refusal>) {
    if s.active >= s.capacity then
      if cancelled then (OneWaiterLess(s, caller), Some(Cancelled))
      else if expired then (OneWaiterLess(s, caller), Some(Backpressure))
      else (s, None)
    else Admit(OneWaiterLess(s, caller), caller, cancelled)
  }

  function Acquire(s: Supervisor, caller: Caller, cancelled: bool, expired: bool): (Supervisor, Option<Refusal>) {
    if s.active < s.capacity then Admit(s, caller, cancelled)
    else if s.waiters >= MAX_PROCESS_ADMISSION_WAITERS then (s, Some(Backpressure))
    else Recheck(s.(waiters := s.waiters + 1, blocked := s.blocked + {caller}), caller, cancelled, expired)
  }

  // Dropping a permit.
  function Release(s: Supervisor, caller: Caller): Supervisor {
    if s.active == 0 then s.(panicked := true)
    else s.(active := s.active - 1, holders := s.holders - {caller})
  }

  datatype Step =
    | Acquired(caller: Caller, cancelled: bool, expired: bool)
    | Woke(caller: Caller, cancelled: bool, expired: bool)
    | Dropped(caller: Caller)

  // A caller is one call of `run`: it asks once, and drops the permit it got.
  predicate CanStep(s: Supervisor, step: Step) {
    !s.panicked
    && match step
       case Acquired(caller, _, _) => caller !in s.holders && caller !in s.blocked
       case Woke(caller, _, _) => caller in s.blocked
       case Dropped(caller) => caller in s.holders
  }

  function TakeStep(s: Supervisor, step: Step): Supervisor
    requires CanStep(s, step)
  {
    match step
    case Acquired(caller, cancelled, expired) => Acquire(s, caller, cancelled, expired).0
    case Woke(caller, cancelled, expired) => Recheck(s, caller, cancelled, expired).0
    case Dropped(caller) => Release(s, caller)
  }

  ghost predicate IsRun(capacity: nat, run: seq<Supervisor>, steps: seq<Step>) {
    && |run| == |steps| + 1
    && run[0] == New(capacity)
    && forall k :: 0 <= k < |steps| ==> CanStep(run[k], steps[k]) && run[k + 1] == TakeStep(run[k], steps[k])
  }

  ghost predicate Inv(s: Supervisor) {
    && !s.panicked
    && s.capacity >= 1
    && s.active == |s.holders| <= s.capacity
    && s.waiters == |s.blocked| <= MAX_PROCESS_ADMISSION_WAITERS
    && s.holders !! s.blocked
  }

  lemma Without(s: set<Caller>, caller: Caller)
    requires caller in s
    ensures |s - {caller}| == |s| - 1
  {}

  lemma WakeKeepsInv(s: Supervisor, caller: Caller, cancelled: bool, expired: bool)
    requires Inv(s) && caller in s.blocked
    ensures Inv(Recheck(s, caller, cancelled, expired).0)
    ensures Recheck(s, caller, cancelled, expired).0.capacity == s.capacity
  {
    Without(s.blocked, caller);
  }

  lemma AcquireKeepsInv(s: Supervisor, caller: Caller, cancelled: bool, expired: bool)
    requires Inv(s) && caller !in s.holders && caller !in s.blocked
    ensures Inv(Acquire(s, caller, cancelled, expired).0)
    ensures Acquire(s, caller, cancelled, expired).0.capacity == s.capacity
  {
    if s.active == s.capacity && s.waiters < MAX_PROCESS_ADMISSION_WAITERS {
      WakeKeepsInv(s.(waiters := s.waiters + 1, blocked := s.blocked + {caller}), caller, cancelled, expired);
    }
  }

  lemma ReleaseKeepsInv(s: Supervisor, caller: Caller)
    requires Inv(s) && caller in s.holders
    ensures Inv(Release(s, caller)) && Release(s, caller).capacity == s.capacity
  {
    Without(s.holders, caller);
  }

  lemma StepKeepsInv(s: Supervisor, step: Step)
    requires Inv(s) && CanStep(s, step)
    ensures Inv(TakeStep(s, step)) && TakeStep(s, step).capacity == s.capacity
  {
    match step
    case Acquired(caller, cancelled, expired) => AcquireKeepsInv(s, caller, cancelled, expired);
    case Woke(caller, cancelled, expired) => WakeKeepsInv(s, caller, cancelled, expired);
    case Dropped(caller) => ReleaseKeepsInv(s, caller);
  }

  /** In every interleaving of any number of callers the counters are what they count: `active` the
      permits held, never more than the capacity, and `waiters` the callers waiting, never more than 32.
      No counter is taken below zero. */
  lemma {:induction false} CountersCount(capacity: nat, run: seq<Supervisor>, steps: seq<Step>, k: nat)
    requires IsRun(capacity, run, steps) && k < |run|
    ensures Inv(run[k]) && run[k].capacity == if capacity < 1 then 1 else capacity
  {
    if k == 0 {
    } else {
      CountersCount(capacity, run, steps, k - 1);
      StepKeepsInv(run[k - 1], steps[k - 1]);
    }
  }

  /** A call is refused for backpressure only while every permit is held, and then only if 32 others wait
      or its time is up; it is refused as cancelled only if it is; otherwise it waits or gets a permit. */
  lemma RefusedExactly(s: Supervisor, caller: Caller, cancelled: bool, expired: bool)
    requires Inv(s) && caller !in s.holders && caller !in s.blocked
    ensures var (next, refusal) := Acquire(s, caller, cancelled, expired);
            && (refusal == Some(Backpressure) <==>
                  |s.holders| == s.capacity
                      && (|s.blocked| == MAX_PROCESS_ADMISSION_WAITERS || (expired && !cancelled)))
            && (refusal == Some(Cancelled) <==>
                cancelled && !(|s.holders| == s.capacity && |s.blocked| == MAX_PROCESS_ADMISSION_WAITERS))
            && (refusal.Some? ==> next == s)
            && (refusal.None? ==> (caller in next.holders <==> |s.holders| < s.capacity)
                                  && (caller in next.blocked <==> |s.holders| == s.capacity))
  {
    assert (s.blocked + {caller}) - {caller} == s.blocked;
  }

  /** A waiting caller leaves the queue the first time it looks while a permit is free. */
  lemma FreePermitEndsWait(s: Supervisor, caller: Caller, cancelled: bool, expired: bool)
    requires Inv(s) && caller in s.blocked && |s.holders| < s.capacity
    ensures var (next, refusal) := Recheck(s, caller, cancelled, expired);
            && caller !in next.blocked && |next.blocked| == |s.blocked| - 1
            && (refusal == if cancelled then Some(Cancelled) else None)
            && (caller in next.holders <==> !cancelled)
  {
    Without(s.blocked, caller);
  }

  class BoundedProcessSupervisor {
    const capacity: nat
    var active: nat
    var waiters: nat
    ghost var holders: set<Caller>
    ghost var blocked: set<Caller>

    ghost function View(): Supervisor
      reads this
    {
      Supervisor(capacity, active, waiters, holders, blocked, false)
    }

    ghost predicate Valid()
      reads this
    {
      Inv(View())
    }

    constructor (capacity: nat)
      ensures Valid() && View() == New(capacity)
    {
      this.capacity := if capacity < 1 then 1 else capacity;
      active, waiters, holders, blocked := 0, 0, {}, {};
    }

    // acquire, until the caller waits for the first time; `held` is its permit.
    method AcquirePermit(caller: Caller, cancelled: bool, expired: bool) returns (refusal: Option<Refusal>, held: bool)
      requires Valid() && caller !in holders && caller !in blocked
      modifies this
      ensures Valid() && (View(), refusal) == Acquire(old(View()), caller, cancelled, expired)
      ensures held == (refusal.None? && old(active) < capacity)
      ensures held <==> caller in holders
      ensures caller in blocked <==> refusal.None? && !held
    {
      StepKeepsInv(View(), Acquired(caller, cancelled, expired));
      held := false;
      if active >= capacity {
        if waiters >= MAX_PROCESS_ADMISSION_WAITERS {
          return Some(Backpressure), false;
        }
        waiters := waiters + 1;
        blocked := blocked + {caller};
        if cancelled {
          waiters := waiters - 1;
          blocked := blocked - {caller};
          return Some(Cancelled), false;
        }
        if expired {
          waiters := waiters - 1;
          blocked := blocked - {caller};
          return Some(Backpressure), false;
        }
        return None, false;
      }
      if cancelled {
        return Some(Cancelled), false;
      }
      active := active + 1;
      holders := holders + {caller};
      return None, true;
    }

    // One turn of the waiting loop after a wake-up.
    method Wake(caller: Caller, cancelled: bool, expired: bool) returns (refusal: Option<Refusal>)
      requires Valid() && caller in blocked
      modifies this
      ensures Valid() && (View(), refusal) == Recheck(old(View()), caller, cancelled, expired)
    {
      StepKeepsInv(View(), Woke(caller, cancelled, expired));
      if active >= capacity {
        if cancelled || expired {
          waiters := waiters - 1;
          blocked := blocked - {caller};
          return if cancelled then Some(Cancelled) else Some(Backpressure);
        }
        return None;
      }
      waiters := waiters - 1;
      blocked := blocked - {caller};
      if cancelled {
        return Some(Cancelled);
      }
      active := active + 1;
      holders := holders + {caller};
      return None;
    }

    method DropPermit(caller: Caller)
      requires Valid() && caller in holders
      modifies this
      ensures Valid() && View() == Release(old(View()), caller)
      ensures caller !in holders && caller !in blocked && active == |holders| < capacity
    {
      StepKeepsInv(View(), Dropped(caller));
      active := active - 1;
      holders := holders - {caller};
    }
  }
}
