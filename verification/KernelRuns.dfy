/** Whole runs of the kernel: whatever the order of arrivals, suspensions, endings and dispatch
    events, and whatever the delays, the invariant holds; and left alone the kernel settles. */
module KernelRuns {
  import opened Common
  import opened KernelState
  import opened KernelProofs

  datatype Step =
    | Advance(time: int)
    | Arrival(task: Task, position: nat)
    | Redispatch
    | Suspend(task: Task)
    | Ending(task: Task)
    | BeginDispatch(cpu: CPU, overhead: nat)
    | EndDispatch(cpu: CPU)

  /** The task is dispatched but its context switch is not over. */
  ghost predicate MidSwitch(s: State, t: Task)
    requires Sized(s)
  {
    t in s.dispatched && s.dispatched[t] < s.N() && s.currExe[s.dispatched[t]] != Some(t)
  }

  ghost predicate RunsOn(s: State, t: Task, p: CPU)
  {
    p < s.N() && s.currExe[p] == Some(t)
  }

  /** Extraction from the ready queue; nothing happens when the task is not there. */
  ghost predicate Extracted(s: State, t: Task, s': State)
  {
    if t in s.ready then exists h :: 0 <= h < |s.ready| && s.ready[h] == t && s' == Without(s, h)
    else s' == s
  }

  /** The task leaves the ready queue and, if it runs, its CPU. */
  ghost predicate Removed(s: State, t: Task, s': State)
    requires Sized(s)
  {
    exists s1 :: Extracted(s, t, s1) && Sized(s1) && s1.N() == s.N() &&
                 if exists p :: RunsOn(s, t, p) then exists p :: RunsOn(s, t, p) && s' == Vacate(s1, t, p) else s' == s1
  }

  /** What the global dispatch makes of a state. */
  ghost predicate Dispatched(s: State, s': State)
    requires Sized(s)
  {
    exists cs :: Selection(s, cs) && (forall i :: 0 <= i < |cs| ==> cs[i] < s.N()) && s' == DispatchAll(s, cs)
  }

  /** One step of the kernel and its environment. The global dispatch follows every arrival or
      activation, but may also be called on its own. A task is not inserted twice and not suspended
      in the middle of its context switch; only a running task ends; an event fires when its time
      has come. */
  ghost predicate Next(s: State, step: Step, s': State)
  {
    Sized(s) &&
    match step
    case Advance(t) => MayAdvance(s, t) && s' == s.(now := t)
    case Arrival(t, h) =>
      t !in s.ready && h <= |s.ready| && Coherent(With(s, t, h)) && Dispatched(With(s, t, h), s')
    case Redispatch => Dispatched(s, s')
    case Suspend(t) => !MidSwitch(s, t) && Removed(s, t, s')
    case Ending(t) => (exists p :: RunsOn(s, t, p)) && Removed(s, t, s')
    case BeginDispatch(p, d) => p < s.N() && s.begin[p] == Some(s.now) && s' == BeginSwitch(Freed(s, p), p, d)
    case EndDispatch(p) => p < s.N() && s.end[p] == Some(s.now) && s' == EndSwitch(s, p)
  }

  lemma NotDispatched(s: State, t: Task)
    requires Coherent(s) && !MidSwitch(s, t) && forall p :: !RunsOn(s, t, p)
    ensures t !in s.dispatched
  {
    assert t in s.dispatched ==> TaskCoherent(s, t) && !RunsOn(s, t, s.dispatched[t]);
  }

  lemma RunningIsReady(s: State, t: Task, p: CPU)
    requires Inv(s) && RunsOn(s, t, p)
    ensures t in s.ready
  {
    assert CpuCoherent(s, p) && TaskCoherent(s, t);
  }

  lemma RemovedByVacating(s: State, t: Task, h: nat, p: CPU)
    requires Inv(s) && RunsOn(s, t, p) && h < |s.ready| && s.ready[h] == t
    ensures Sized(s) && Removed(s, t, Vacate(Without(s, h), t, p))
  {
    assert Extracted(s, t, Without(s, h));
  }

  lemma EndingStep(s: State, t: Task, p: CPU, s': State)
    requires Sized(s) && RunsOn(s, t, p) && Removed(s, t, s')
    ensures Next(s, Ending(t), s')
  {}

  lemma RemovedByExtraction(s: State, t: Task, s': State)
    requires Inv(s) && Extracted(s, t, s') && forall c :: !RunsOn(s, t, c)
    ensures Sized(s) && Removed(s, t, s')
  {}

  lemma RemovedKeepsInv(s: State, t: Task, s': State)
    requires Inv(s) && !MidSwitch(s, t) && Removed(s, t, s')
    ensures Inv(s')
  {
    if exists p :: RunsOn(s, t, p) {
      var p :| RunsOn(s, t, p) && exists s1 :: Extracted(s, t, s1) && Sized(s1) && s1.N() == s.N() && s' == Vacate(s1, t, p);
      assert CpuCoherent(s, p) && TaskCoherent(s, t);
      var s1 :| Extracted(s, t, s1) && Sized(s1) && s1.N() == s.N() && s' == Vacate(s1, t, p);
      var h :| 0 <= h < |s.ready| && s.ready[h] == t && s1 == Without(s, h);
      VacateKeepsInv(s, h, p);
    } else if t in s.ready {
      var h :| 0 <= h < |s.ready| && s.ready[h] == t && s' == Without(s, h);
      NotDispatched(s, t);
      WithoutKeepsInv(s, h);
    }
  }

  /** Suspending a task in the middle of its context switch, and only that, breaks the invariant:
      the task leaves the ready queue but keeps its CPU. */
  lemma SuspendKeepsInvIff(s: State, t: Task, s': State)
    requires Inv(s) && Removed(s, t, s')
    ensures Inv(s') <==> !MidSwitch(s, t)
  {
    if MidSwitch(s, t) {
      assert TaskCoherent(s, t);
      forall c | 0 <= c < s.N() ensures s.currExe[c] != Some(t) {
        assert CpuCoherent(s, c);
      }
      assert forall p :: !RunsOn(s, t, p);
      var h :| 0 <= h < |s.ready| && s.ready[h] == t && s' == Without(s, h);
      WithoutPrefix(s, h);
      assert !TaskCoherent(s', t);
    } else {
      RemovedKeepsInv(s, t, s');
    }
  }

  lemma DispatchNone(s: State)
    requires Sized(s)
    ensures DispatchAll(s, []) == s
  {}

  lemma DispatchAllMore(s: State, cs: seq<CPU>, p: CPU)
    requires Sized(s) && p < s.N() && forall i :: 0 <= i < |cs| ==> cs[i] < s.N()
    ensures DispatchAll(s, cs + [p]) == DispatchOn(DispatchAll(s, cs), p)
  {
    assert (cs + [p])[..|cs|] == cs;
  }

  /** The begin event of every CPU dispatched on is queued, for now or for the end of the context switch
      in progress; those of the others stay as they were. */
  lemma {:induction false} DispatchAllTimes(s: State, cs: seq<CPU>)
    requires Sized(s) && forall i :: 0 <= i < |cs| ==> cs[i] < s.N()
    ensures forall c :: 0 <= c < s.N() ==>
              DispatchAll(s, cs).begin[c] == if c in cs then Some(if s.switching[c] then s.endTime[c] else s.now) else s.begin[c]
  {
    if cs != [] {
      DispatchAllTimes(s, cs[..|cs| - 1]);
      assert cs == cs[..|cs| - 1] + [cs[|cs| - 1]];
    }
  }

  /** What the global dispatch has achieved when as many CPUs are picked as tasks wait. */
  lemma DispatchDone(s: State, cs: seq<CPU>, f: nat, i: nat)
    requires Coherent(s) && Picked(s, cs, f, i) && |cs| == |Waiting(s)|
    requires forall h :: 0 <= h < |cs| ==> cs[h] < s.N()
    ensures Selection(s, cs) && Inv(DispatchAll(s, cs)) && Dispatched(s, DispatchAll(s, cs))
    ensures Next(s, Redispatch, DispatchAll(s, cs))
  {
    PickedIsSelection(s, cs, f, i);
    SelectionSettles(s, cs);
  }

  lemma DispatchSettles(s: State, s': State)
    requires Coherent(s) && Dispatched(s, s')
    ensures Inv(s')
  {
    var cs :| Selection(s, cs) && (forall i :: 0 <= i < |cs| ==> cs[i] < s.N()) && s' == DispatchAll(s, cs);
    SelectionSettles(s, cs);
  }

  /** One CPU, one task: it arrives, and its context switch begins. */
  function Arrived(): State {
    State(0, [0], [None], map[], map[], [false], [Some(0)], [None], [None], [0])
  }

  function Switching(): State {
    State(0, [0], [None], map[0 := 0], map[], [true], [None], [Some(1)], [Some(0)], [1])
  }

  function Fresh(): State {
    State(0, [], [None], map[], map[], [false], [None], [None], [None], [0])
  }

  lemma FirstArrival()
    ensures Initial(Fresh()) && Next(Fresh(), Arrival(0, 0), Arrived())
  {
    var s := With(Fresh(), 0, 0);
    InitialInv(Fresh());
    WithCoherent(Fresh(), 0, 0);
    assert s.ready == [0] && s.K() == 1;
    assert s.ready[0] == 0;
    assert s.Prefix() == {0};
    assert Waiting(s) == {0};
    assert Selection(s, [0]);
    assert [0][..0] == [];
    assert DispatchAll(s, [0]) == Arrived();
  }

  lemma FirstSwitch()
    ensures Next(Arrived(), BeginDispatch(0, 1), Switching()) && MidSwitch(Switching(), 0)
  {
    assert BeginSwitch(Freed(Arrived(), 0), 0, 1) == Switching();
  }

  /** A run soon gets where suspending a task breaks the invariant. */
  lemma MidSwitchIsReached()
    ensures exists states, steps, after ::
              && IsRun(states, steps) && Initial(states[0]) && Inv(states[|steps|])
              && MidSwitch(states[|steps|], 0) && Removed(states[|steps|], 0, after) && !Inv(after)
  {
    hide Next, Initial, Removed, Inv;
    var states, steps, after := [Fresh(), Arrived(), Switching()], [Arrival(0, 0), BeginDispatch(0, 1)], Without(Switching(), 0);
    FirstArrival();
    FirstSwitch();
    InitialInv(Fresh());
    assert IsRun(states, steps);
    RunKeepsInv(states, steps, 2);
    assert Extracted(Switching(), 0, after);
    RemovedByExtraction(Switching(), 0, after);
    SuspendKeepsInvIff(Switching(), 0, after);
    assert states[|steps|] == Switching();
  }

  /** Every step keeps the invariant. */
  lemma NextKeepsInv(s: State, step: Step, s': State)
    requires Inv(s) && Next(s, step, s')
    ensures Inv(s')
  {
    match step
    case Advance(t) => AdvanceKeepsInv(s, t);
    case Arrival(t, h) =>
      DispatchSettles(With(s, t, h), s');
    case Redispatch => DispatchSettles(s, s');
    case Suspend(t) => RemovedKeepsInv(s, t, s');
    case Ending(t) =>
      var p :| RunsOn(s, t, p);
      assert CpuCoherent(s, p);
      RemovedKeepsInv(s, t, s');
    case BeginDispatch(p, d) => BeginKeepsInv(s, p, d);
    case EndDispatch(p) => EndKeepsInv(s, p);
  }

  ghost predicate IsRun(states: seq<State>, steps: seq<Step>)
  {
    |states| == |steps| + 1 && forall i :: 0 <= i < |steps| ==> Next(states[i], steps[i], states[i + 1])
  }

  /** Every reachable state satisfies the invariant. */
  lemma {:induction false} RunKeepsInv(states: seq<State>, steps: seq<Step>, i: nat)
    requires IsRun(states, steps) && Inv(states[0]) && i <= |steps|
    ensures Inv(states[i])
  {
    if i > 0 {
      RunKeepsInv(states, steps, i - 1);
      NextKeepsInv(states[i - 1], steps[i - 1], states[i]);
    }
  }

  /** A kernel that has just been set up. */
  ghost predicate Initial(s: State)
  {
    && Sized(s) && s.ready == [] && s.dispatched == map[]
    && forall c :: 0 <= c < s.N() ==>
         s.currExe[c].None? && !s.switching[c] && s.begin[c].None? && s.end[c].None?
  }

  lemma InitialInv(s: State)
    requires Initial(s)
    ensures Inv(s)
  {
    RangeSize(s.N(), Cpus(s));
    SubsetSize(Spare(s), Cpus(s));
  }

  ghost predicate Resting(s: State)
    requires Sized(s)
  {
    forall c :: 0 <= c < s.N() ==> s.begin[c].None? && !s.switching[c]
  }

  /** Global scheduling is correct at rest: in any state of any run in which no begin event is
      queued the dispatched tasks are the first min(n, length) of the ready queue, and when no CPU
      is switching these are the running tasks. */
  lemma GlobalScheduling(states: seq<State>, steps: seq<Step>, i: nat)
    requires IsRun(states, steps) && Initial(states[0]) && i <= |steps|
    ensures var s := states[i];
            && Coherent(s)
            && ((forall c :: 0 <= c < s.N() ==> s.begin[c].None?) ==> s.dispatched.Keys == s.Prefix())
            && (Resting(s) ==> forall t :: t in s.Prefix() <==> exists c :: RunsOn(s, t, c))
  {
    InitialInv(states[0]);
    RunKeepsInv(states, steps, i);
    var s := states[i];
    if forall c :: 0 <= c < s.N() ==> s.begin[c].None? {
      AtRestDispatched(s);
    }
    if Resting(s) {
      AtRestRunning(s);
      forall t ensures t in s.Prefix() <==> exists c :: RunsOn(s, t, c) {
        if t in s.Prefix() {
          var c :| 0 <= c < s.N() && s.currExe[c] == Some(t);
          assert RunsOn(s, t, c);
        }
      }
    }
  }

  // ------------------------------------------------------------------ the CPU a task last ran on

  ghost predicate Runs(s: State, t: Task)
  {
    exists p :: RunsOn(s, t, p)
  }

  /** What a step does to the CPUs and to what is remembered of them. */
  ghost predicate LeavesCpu(s: State, u: Task, p: CPU, s': State)
  {
    RunsOn(s, u, p) && s'.oldExe == s.oldExe[u := p] && s'.currExe == s.currExe[p := None]
  }

  ghost predicate StartsOn(s: State, p: CPU, s': State)
  {
    p < s.N() && s.currExe[p].None? && s'.oldExe == s.oldExe && |s'.currExe| == s.N()
    && forall c :: 0 <= c < s.N() && c != p ==> s'.currExe[c] == s.currExe[c]
  }

  lemma ExtractedOnly(s: State, u: Task, s1: State)
    requires Extracted(s, u, s1)
    ensures s1.oldExe == s.oldExe && s1.currExe == s.currExe
  {}

  lemma VacateLeaves(s: State, u: Task, p: CPU, s1: State)
    requires Sized(s1) && s1.oldExe == s.oldExe && s1.currExe == s.currExe && RunsOn(s, u, p)
    ensures LeavesCpu(s, u, p, Vacate(s1, u, p))
  {}

  lemma RemovedLeaves(s: State, u: Task, s': State)
    requires Sized(s) && Removed(s, u, s')
    ensures (s'.oldExe == s.oldExe && s'.currExe == s.currExe) || exists p :: LeavesCpu(s, u, p, s')
  {
    hide Extracted, LeavesCpu;
    var s1 :| Extracted(s, u, s1) && Sized(s1) && s1.N() == s.N() &&
              if exists p :: RunsOn(s, u, p) then exists p :: RunsOn(s, u, p) && s' == Vacate(s1, u, p) else s' == s1;
    ExtractedOnly(s, u, s1);
    if exists p :: RunsOn(s, u, p) {
      var p :| RunsOn(s, u, p) && s' == Vacate(s1, u, p);
      VacateLeaves(s, u, p, s1);
    }
  }

  /** A step leaves the CPUs as they were, takes one task off its CPU and remembers which, or starts a
      task on a CPU that ran none. */
  lemma StepOnCpus(s: State, step: Step, s': State)
    requires Inv(s) && Next(s, step, s')
    ensures (s'.oldExe == s.oldExe && s'.currExe == s.currExe) || (exists u, p :: LeavesCpu(s, u, p, s'))
            || exists p :: StartsOn(s, p, s')
  {
    match step
    case Advance(_) =>
    case Arrival(_, _) =>
    case Redispatch =>
    case Suspend(t) => RemovedLeaves(s, t, s');
    case Ending(t) => RemovedLeaves(s, t, s');
    case BeginDispatch(p, _) =>
      if s.currExe[p].Some? {
        assert LeavesCpu(s, s.currExe[p].value, p, s');
      }
    case EndDispatch(p) =>
      assert CpuCoherent(s, p);
      assert StartsOn(s, p, s');
  }

  lemma RunsOnOne(s: State, t: Task, p: CPU, q: CPU)
    requires Inv(s) && RunsOn(s, t, p) && RunsOn(s, t, q)
    ensures p == q
  {
    assert CpuCoherent(s, p) && CpuCoherent(s, q);
  }

  /** A task that stops running is remembered with the CPU that it ran on. */
  lemma StoppingIsRemembered(s: State, step: Step, s': State, t: Task, p: CPU)
    requires Inv(s) && Next(s, step, s') && RunsOn(s, t, p) && !Runs(s', t)
    ensures t in s'.oldExe && s'.oldExe[t] == p
  {
    StepOnCpus(s, step, s');
    assert !RunsOn(s', t, p);
    if u, q :| LeavesCpu(s, u, q, s') {
      if q == p {
        assert u == t;
      }
    }
  }

  /** What is remembered of a task changes only when it is taken off a CPU, to that CPU. */
  lemma MemoryChange(s: State, step: Step, s': State, t: Task)
    requires Inv(s) && Next(s, step, s')
    ensures t in s.oldExe ==> t in s'.oldExe
    ensures t in s'.oldExe && (t in s.oldExe ==> s'.oldExe[t] != s.oldExe[t]) ==> RunsOn(s, t, s'.oldExe[t]) && Runs(s, t)
  {
    hide Inv, Next;
    StepOnCpus(s, step, s');
  }

  /** In any run, the kernel remembers of a task that does not run the CPU on which it last did. */
  lemma {:induction false} LastCpuIsRemembered(states: seq<State>, steps: seq<Step>, i: nat, j: nat, t: Task, p: CPU)
    requires IsRun(states, steps) && Initial(states[0]) && i < j <= |steps|
    requires RunsOn(states[i], t, p) && forall k :: i < k <= j ==> !Runs(states[k], t)
    ensures t in states[j].oldExe && states[j].oldExe[t] == p
  {
    hide Inv, Next, Initial, RunsOn, Runs;
    InitialInv(states[0]);
    RunKeepsInv(states, steps, j - 1);
    if j == i + 1 {
      StoppingIsRemembered(states[i], steps[i], states[j], t, p);
    } else {
      LastCpuIsRemembered(states, steps, i, j - 1, t, p);
      MemoryChange(states[j - 1], steps[j - 1], states[j], t);
    }
  }

  /** And it remembers no CPU on which the task has not run. */
  lemma {:induction false} RememberedHasRun(states: seq<State>, steps: seq<Step>, j: nat, t: Task)
    requires IsRun(states, steps) && Initial(states[0]) && states[0].oldExe == map[] && j <= |steps|
    requires t in states[j].oldExe
    ensures exists i :: 0 <= i < j && RunsOn(states[i], t, states[j].oldExe[t])
  {
    hide Inv, Next, RunsOn, Runs;
    if j > 0 {
      InitialInv(states[0]);
      RunKeepsInv(states, steps, j - 1);
      MemoryChange(states[j - 1], steps[j - 1], states[j], t);
      if !RunsOn(states[j - 1], t, states[j].oldExe[t]) {
        RememberedHasRun(states, steps, j - 1, t);
      }
    }
  }

  // ------------------------------------------------------------------ the kernel settles

  /** The dispatch events CPU c still has to go through. */
  ghost function CpuWork(s: State, c: CPU): nat
    requires Sized(s) && c < s.N()
  {
    if s.begin[c].Some? then 2 else if s.end[c].Some? then 1 else 0
  }

  ghost function Work(s: State, n: nat): nat
    requires Sized(s) && n <= s.N()
  {
    if n == 0 then 0 else Work(s, n - 1) + CpuWork(s, n - 1)
  }

  lemma {:induction false} WorkOfOthers(s: State, s': State, p: CPU, n: nat)
    requires Sized(s) && Sized(s') && s.N() == s'.N() && n <= s.N()
    requires forall c :: 0 <= c < s.N() && c != p ==> CpuWork(s', c) == CpuWork(s, c)
    ensures Work(s', n) == Work(s, n) + (if p < n then CpuWork(s', p) - CpuWork(s, p) else 0)
  {
    if n > 0 {
      WorkOfOthers(s, s', p, n - 1);
    }
  }

  lemma {:induction false} WorkBounds(s: State, n: nat)
    requires Sized(s) && n <= s.N()
    ensures Work(s, n) <= 2 * n
    ensures Work(s, n) == 0 <==> forall c :: 0 <= c < n ==> CpuWork(s, c) == 0
  {
    if n > 0 {
      WorkBounds(s, n - 1);
    }
  }

  ghost predicate Internal(step: Step)
  {
    step.Advance? || step.BeginDispatch? || step.EndDispatch?
  }

  lemma BeginWork(s: State, p: CPU, overhead: nat)
    requires Sized(s) && p < s.N() && s.begin[p] == Some(s.now)
    ensures var s' := BeginSwitch(Freed(s, p), p, overhead);
            Sized(s') && s'.N() == s.N() && Work(s, s.N()) == Work(s', s.N()) + 1
  {
    var s' := BeginSwitch(Freed(s, p), p, overhead);
    assert s'.begin == s.begin[p := None] && s'.end == s.end[p := Some(s.now + overhead)];
    WorkOfOthers(s, s', p, s.N());
  }

  lemma EndWork(s: State, p: CPU)
    requires Coherent(s) && p < s.N() && s.end[p] == Some(s.now)
    ensures var s' := EndSwitch(s, p);
            Sized(s') && s'.N() == s.N() && Work(s, s.N()) == Work(s', s.N()) + 1
  {
    var s' := EndSwitch(s, p);
    assert CpuCoherent(s, p);
    WorkOfOthers(s, s', p, s.N());
  }

  /** Each dispatch event is one unit of work; the clock alone does none. */
  lemma StepWork(s: State, step: Step, s': State)
    requires Inv(s) && Next(s, step, s') && Internal(step)
    ensures s'.N() == s.N() && Sized(s')
    ensures Work(s, s.N()) == Work(s', s.N()) + (if step.Advance? then 0 else 1)
  {
    match step
    case Advance(t) => WorkOfOthers(s, s', s.N(), s.N());
    case BeginDispatch(p, d) => BeginWork(s, p, d);
    case EndDispatch(p) => EndWork(s, p);
  }

  /** The dispatch events among the first n steps. */
  ghost function Events(steps: seq<Step>, n: nat): nat
    requires n <= |steps|
  {
    if n == 0 then 0 else Events(steps, n - 1) + (if steps[n - 1].Advance? then 0 else 1)
  }

  /** Left alone, the kernel goes through at most two dispatch events per CPU, and when it has gone
      through all its work no begin event is queued and no CPU is switching. */
  lemma {:induction false} Settles(states: seq<State>, steps: seq<Step>, n: nat)
    requires IsRun(states, steps) && Inv(states[0]) && n <= |steps|
    requires forall i :: 0 <= i < |steps| ==> Internal(steps[i])
    ensures Inv(states[n]) && states[n].N() == states[0].N()
    ensures Work(states[0], states[0].N()) == Work(states[n], states[n].N()) + Events(steps, n)
    ensures Events(steps, n) <= 2 * states[0].N()
    ensures Events(steps, n) == Work(states[0], states[0].N()) <==> Resting(states[n])
  {
    hide CpuCoherent, CpuOnTime, TaskCoherent, Settled, Next;
    if n > 0 {
      Settles(states, steps, n - 1);
      StepWork(states[n - 1], steps[n - 1], states[n]);
    }
    RunKeepsInv(states, steps, n);
    WorkBounds(states[0], states[0].N());
    NoWorkIsRest(states[n]);
  }

  lemma NoWorkIsRest(s: State)
    requires Inv(s)
    ensures Work(s, s.N()) == 0 <==> Resting(s)
  {
    WorkBounds(s, s.N());
    forall c | 0 <= c < s.N() ensures CpuWork(s, c) == 0 <==> s.begin[c].None? && !s.switching[c] {
      assert CpuCoherent(s, c);
    }
  }

  /** The time CPU c's queued event is due. */
  function Due(s: State, c: CPU): Option<int>
    requires Sized(s) && c < s.N()
  {
    if s.begin[c].Some? then s.begin[c] else s.end[c]
  }

  lemma {:induction false} EarliestDue(s: State, n: nat) returns (e: CPU)
    requires Sized(s) && n <= s.N() && exists c :: 0 <= c < n && Due(s, c).Some?
    ensures e < n && Due(s, e).Some?
    ensures forall c :: 0 <= c < n && Due(s, c).Some? ==> Due(s, e).value <= Due(s, c).value
  {
    if exists c :: 0 <= c < n - 1 && Due(s, c).Some? {
      e := EarliestDue(s, n - 1);
      if Due(s, n - 1).Some? && Due(s, n - 1).value < Due(s, e).value {
        e := n - 1;
      }
    } else {
      e := n - 1;
    }
  }

  lemma SomethingDue(s: State)
    requires Inv(s) && !Resting(s)
    ensures exists c :: 0 <= c < s.N() && Due(s, c).Some?
  {
    NoWorkIsRest(s);
    WorkBounds(s, s.N());
    var c :| 0 <= c < s.N() && CpuWork(s, c) != 0;
    assert Due(s, c).Some?;
  }

  lemma EarliestMayAdvance(s: State, e: CPU)
    requires Coherent(s) && e < s.N() && Due(s, e).Some?
    requires forall c :: 0 <= c < s.N() && Due(s, c).Some? ==> Due(s, e).value <= Due(s, c).value
    ensures MayAdvance(s, Due(s, e).value)
  {
    assert CpuOnTime(s, e) && CpuCoherent(s, e);
    forall c | 0 <= c < s.N()
      ensures s.begin[c].Some? ==> Due(s, e).value <= s.begin[c].value
      ensures s.end[c].Some? ==> Due(s, e).value <= s.end[c].value
    {
      assert CpuCoherent(s, c);
      assert Due(s, c).Some? ==> Due(s, e).value <= Due(s, c).value;
    }
  }

  /** A kernel that is not at rest can always go on: the clock may move to its earliest dispatch
      event, and that event then fires. */
  lemma Progress(s: State, overhead: nat)
    requires Inv(s) && !Resting(s)
    ensures exists t, step: Step, s' ::
              Next(s, Advance(t), s.(now := t)) && !step.Advance? && Internal(step) && Next(s.(now := t), step, s')
  {
    SomethingDue(s);
    var e := EarliestDue(s, s.N());
    var t := Due(s, e).value;
    assert CpuOnTime(s, e) && CpuCoherent(s, e);
    EarliestMayAdvance(s, e);
    var s1 := s.(now := t);
    assert Next(s, Advance(t), s1);
    if s.begin[e].Some? {
      assert Next(s1, BeginDispatch(e, overhead), BeginSwitch(Freed(s1, e), e, overhead));
    } else {
      assert Next(s1, EndDispatch(e), EndSwitch(s1, e));
    }
  }
}
