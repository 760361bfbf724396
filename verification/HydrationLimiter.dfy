/**
 The slot-handoff limiter `limited` of useCustomHomeCatalog.ts.

 Code between two awaits runs without interruption, so a limiter call has three
 atomic segments: it enters (taking a slot or queueing), a queued call resumes
 after its slot was handed over, and a task that settled releases its slot. The
 scheduler picks the segments in any order.
 */
module HydrationLimiter {

  type Task = nat

  const SLOTS := 4

  /**
   `activeWorkers` and `waiters` are the program's variables. The rest records
   where each call is: `granted` lists calls in the order they obtained a slot,
   `handedOff` holds resolved waiters whose continuation has not run yet.
   */
  datatype State = State(
    activeWorkers: int,
    waiters: seq<Task>,
    running: set<Task>,
    handedOff: set<Task>,
    arrivals: seq<Task>,
    granted: seq<Task>,
    finished: set<Task>)

  const INITIAL := State(0, [], {}, {}, [], [], {})

  datatype Step = Enter(task: Task) | Resume(task: Task) | Release(task: Task)

  predicate Enabled(s: State, step: Step) {
    match step
    case Enter(t) => t !in s.arrivals
    case Resume(t) => t in s.handedOff
    case Release(t) => t in s.running
  }

  function EnterSlot(s: State, t: Task): State {
    if s.activeWorkers >= SLOTS then
      s.(waiters := s.waiters + [t], arrivals := s.arrivals + [t])
    else
      s.(activeWorkers := s.activeWorkers + 1, running := s.running + {t},
         arrivals := s.arrivals + [t], granted := s.granted + [t])
  }

  function ResumeTask(s: State, t: Task): State {
    s.(handedOff := s.handedOff - {t}, running := s.running + {t})
  }

  function ReleaseSlot(s: State, t: Task): State {
    var left := s.(running := s.running - {t}, finished := s.finished + {t});
    if s.waiters != [] then
      left.(waiters := s.waiters[1..], handedOff := s.handedOff + {s.waiters[0]},
            granted := s.granted + [s.waiters[0]])
    else
      left.(activeWorkers := s.activeWorkers - 1)
  }

  function Apply(s: State, step: Step): State {
    match step
    case Enter(t) => EnterSlot(s, t)
    case Resume(t) => ResumeTask(s, t)
    case Release(t) => ReleaseSlot(s, t)
  }

  /** The scheduler can lead from `s` to `t` by `steps`. */
  ghost predicate Path(s: State, steps: seq<Step>, t: State)
    decreases |steps|
  {
    if steps == [] then s == t
    else Enabled(s, steps[0]) && Path(Apply(s, steps[0]), steps[1..], t)
  }

  // --- Safety --------------------------------------------------------------

  ghost predicate NoDuplicates(xs: seq<Task>) {
    forall i, j | 0 <= i < j < |xs| :: xs[i] != xs[j]
  }

  ghost predicate Inv(s: State) {
    && s.activeWorkers == |s.running| + |s.handedOff|
    && s.activeWorkers <= SLOTS
    && (s.waiters != [] ==> s.activeWorkers == SLOTS)
    && s.granted + s.waiters == s.arrivals
    && NoDuplicates(s.arrivals)
    && s.running !! s.handedOff && s.running !! s.finished && s.handedOff !! s.finished
    && (forall x :: x in s.granted <==> x in s.running || x in s.handedOff || x in s.finished)
  }

  /** The call at the head of the queue has not been granted a slot. */
  lemma HeadIsNotGranted(s: State)
    requires Inv(s) && s.waiters != []
    ensures s.waiters[0] !in s.granted
  {
    assert s.arrivals[|s.granted|] == s.waiters[0];
    assert forall k | 0 <= k < |s.granted| :: s.granted[k] == s.arrivals[k];
  }

  lemma EnterKeepsInv(s: State, task: Task)
    requires Inv(s) && task !in s.arrivals
    ensures Inv(EnterSlot(s, task))
  {
    var t := EnterSlot(s, task);
    assert task !in s.granted by {
      assert forall x :: x in s.granted ==> x in s.granted + s.waiters;
    }
    if s.activeWorkers >= SLOTS {
      assert t.granted + t.waiters == t.arrivals;
    } else {
      assert s.waiters == [] && t.granted + t.waiters == t.arrivals;
    }
  }

  lemma ReleaseKeepsInv(s: State, task: Task)
    requires Inv(s) && task in s.running
    ensures Inv(ReleaseSlot(s, task))
  {
    var t := ReleaseSlot(s, task);
    if s.waiters != [] {
      HeadIsNotGranted(s);
      assert t.granted + t.waiters == s.granted + s.waiters;
    }
  }

  lemma StepKeepsInv(s: State, step: Step)
    requires Inv(s) && Enabled(s, step)
    ensures Inv(Apply(s, step))
  {
    match step
    case Enter(task) => EnterKeepsInv(s, task);
    case Resume(task) =>
    case Release(task) => ReleaseKeepsInv(s, task);
  }

  /**
   On every schedule: never more than four tasks run, the counter equals running
   plus handed-off slots, a queue exists only while all four slots are taken, and
   slots are granted in arrival order, nobody overtaking and nobody lost.
   */
  lemma {:induction false} LimiterSafe(s: State, steps: seq<Step>, t: State)
    requires Inv(s) && Path(s, steps, t)
    ensures Inv(t)
    ensures |t.running| <= SLOTS && t.activeWorkers == |t.running| + |t.handedOff|
    ensures t.granted <= t.arrivals && t.waiters == t.arrivals[|t.granted|..]
    ensures t.waiters != [] ==> |t.running + t.handedOff| == SLOTS
    decreases |steps|
  {
    if steps == [] {
      assert t.arrivals[|t.granted|..] == t.waiters;
    } else {
      StepKeepsInv(s, steps[0]);
      LimiterSafe(Apply(s, steps[0]), steps[1..], t);
    }
  }

  lemma InitialInv()
    ensures Inv(INITIAL)
  {
  }

  // --- Progress ------------------------------------------------------------

  /** Segments still to run before every call that arrived has released its slot. */
  function Remaining(s: State): nat {
    2 * |s.waiters| + 2 * |s.handedOff| + |s.running|
  }

  ghost predicate OnlyInternal(steps: seq<Step>) {
    forall k | 0 <= k < |steps| :: !steps[k].Enter?
  }

  ghost predicate Quiescent(s: State) {
    forall step: Step :: Enabled(s, step) ==> step.Enter?
  }

  /** Every segment that is not an arrival uses up exactly one unit of work. */
  lemma InternalStepWorks(s: State, step: Step)
    requires Inv(s) && Enabled(s, step) && !step.Enter?
    ensures Remaining(Apply(s, step)) == Remaining(s) - 1
  {
    if step.Release? && s.waiters != [] {
      HeadIsNotGranted(s);
    }
  }

  /**
   No lost wake-up: after the last arrival every schedule ends after exactly
   `Remaining` segments, and when no segment is left the queue is empty, the
   count is zero and every call that arrived has finished.
   */
  lemma {:induction false} LimiterDrains(s: State, steps: seq<Step>, t: State)
    requires Inv(s) && Path(s, steps, t) && OnlyInternal(steps)
    ensures |steps| + Remaining(t) == Remaining(s)
    ensures Quiescent(t) <==> Remaining(t) == 0
    ensures Quiescent(t) ==> t.waiters == [] && t.activeWorkers == 0 && (forall x :: x in t.finished <==> x in t.arrivals)
    decreases |steps|
  {
    if steps == [] {
      if Quiescent(t) {
        assert forall x :: x in t.running ==> Enabled(t, Release(x));
        assert forall x :: x in t.handedOff ==> Enabled(t, Resume(x));
        assert t.running == {} && t.handedOff == {};
      }
    } else {
      StepKeepsInv(s, steps[0]);
      InternalStepWorks(s, steps[0]);
      assert OnlyInternal(steps[1..]);
      LimiterDrains(Apply(s, steps[0]), steps[1..], t);
    }
  }

  // --- The limiter ---------------------------------------------------------

  class Limiter {
    var activeWorkers: int
    var waiters: seq<Task>
    ghost var running: set<Task>
    ghost var handedOff: set<Task>
    ghost var arrivals: seq<Task>
    ghost var granted: seq<Task>
    ghost var finished: set<Task>

    ghost function View(): State
      reads this
    {
      State(activeWorkers, waiters, running, handedOff, arrivals, granted, finished)
    }

    constructor ()
      ensures View() == INITIAL
    {
      activeWorkers, waiters := 0, [];
      running, handedOff, arrivals, granted, finished := {}, {}, [], [], {};
    }

    /** First segment; `queued` tells whether the call awaits a hand-off. */
    method EnterCall(task: Task) returns (queued: bool)
      requires Inv(View()) && Enabled(View(), Enter(task))
      modifies this
      ensures View() == EnterSlot(old(View()), task) && Inv(View())
      ensures queued <==> task in waiters
      ensures !queued ==> task in running
    {
      EnterKeepsInv(View(), task);
      assert task !in waiters by {
        assert task in waiters ==> task in granted + waiters;
      }
      queued := activeWorkers >= 4;
      if queued {
        waiters := waiters + [task];
      } else {
        activeWorkers := activeWorkers + 1;
        running := running + {task};
        granted := granted + [task];
      }
      arrivals := arrivals + [task];
    }

    method ResumeCall(task: Task)
      requires Inv(View()) && Enabled(View(), Resume(task))
      modifies `running, `handedOff
      ensures View() == ResumeTask(old(View()), task) && Inv(View())
    {
      StepKeepsInv(View(), Resume(task));
      handedOff := handedOff - {task};
      running := running + {task};
    }

    /** Runs when the awaited call settles, whether it succeeded or failed. */
    method ReleaseCall(task: Task)
      requires Inv(View()) && Enabled(View(), Release(task))
      modifies this
      ensures View() == ReleaseSlot(old(View()), task) && Inv(View())
    {
      ReleaseKeepsInv(View(), task);
      running := running - {task};
      finished := finished + {task};
      if |waiters| > 0 {
        var next := waiters[0];
        waiters := waiters[1..];
        handedOff := handedOff + {next};
        granted := granted + [next];
      } else {
        activeWorkers := activeWorkers - 1;
      }
    }
  }
}
