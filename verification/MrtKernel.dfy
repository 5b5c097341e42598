/** The global multiprocessor kernel. Each operation is tied to its effect on the kernel's state;
    that these effects keep the invariant is shown in KernelProofs. */
module MrtKernel {
  import opened Common
  import opened KernelState
  import opened KernelProofs
  import opened KernelRuns
  import opened ReadyQueue

  class MRTKernel {
    const sched: Scheduler
    var now: int
    var currExe: seq<Option<Task>>
    var oldExe: map<Task, CPU>
    var dispatched: map<Task, CPU>
    var switching: seq<bool>
    var beginEvt: seq<Option<int>>
    var endEvt: seq<Option<int>>
    var endTask: seq<Option<Task>>
    var endTime: seq<int>
    var contextSwitchDelay: nat
    var migrationDelay: nat

    ghost function View(): State
      reads this, sched
    {
      State(now, sched.queue, currExe, dispatched, oldExe, switching, beginEvt, endEvt, endTask, endTime)
    }

    /** Coherent, but the ready queue may have changed since the last dispatch. */
    ghost predicate Consistent()
      reads this, sched
    {
      sched.Valid() && Coherent(View())
    }

    ghost predicate Valid()
      reads this, sched
    {
      Consistent() && Inv(View())
    }

    constructor (scheduler: Scheduler, ncpu: nat, switchDelay: nat)
      requires scheduler.Valid() && scheduler.queue == []
      ensures Valid() && sched == scheduler && Initial(View()) && View().N() == ncpu
    {
      sched := scheduler;
      now := 0;
      currExe := seq(ncpu, i => None);
      oldExe, dispatched := map[], map[];
      switching := seq(ncpu, i => false);
      beginEvt, endEvt := seq(ncpu, i => None), seq(ncpu, i => None);
      endTask := seq(ncpu, i => None);
      endTime := seq(ncpu, i => 0);
      contextSwitchDelay, migrationDelay := switchDelay, 0;
      new;
      InitialInv(View());
    }

    // ---------------------------------------------------------------- lookups

    /** The CPU on which a task runs. */
    method GetProcessor(t: Task) returns (p: Option<CPU>)
      ensures p.Some? ==> p.value < |currExe| && currExe[p.value] == Some(t)
      ensures p.None? ==> forall c :: 0 <= c < |currExe| ==> currExe[c] != Some(t)
    {
      p := None;
      for c := 0 to |currExe|
        invariant p.Some? ==> p.value < |currExe| && currExe[p.value] == Some(t)
        invariant p.None? ==> forall d :: 0 <= d < c ==> currExe[d] != Some(t)
      {
        if currExe[c] == Some(t) {
          p := Some(c);
        }
      }
    }

    method IsDispatched(p: CPU) returns (b: bool)
      ensures b <==> exists t :: t in dispatched && dispatched[t] == p
    {
      var rest := dispatched.Keys;
      while rest != {}
        invariant rest <= dispatched.Keys
        invariant forall t :: t in dispatched && t !in rest ==> dispatched[t] != p
      {
        var t :| t in rest;
        if dispatched[t] == p {
          return true;
        }
        rest := rest - {t};
      }
      return false;
    }

    /** The first free CPU from f on, or past the last. */
    method GetNextFreeProc(f: nat) returns (g: nat)
      requires f <= |currExe|
      ensures f <= g <= |currExe|
      ensures g < |currExe| ==> FreeIn(View(), g)
      ensures forall c :: f <= c < g ==> !FreeIn(View(), c)
    {
      g := f;
      while g < |currExe|
        invariant f <= g <= |currExe|
        invariant forall c :: f <= c < g ==> !FreeIn(View(), c)
      {
        var b := IsDispatched(g);
        if currExe[g].None? && !b {
          return;
        }
        g := g + 1;
      }
    }

    // ---------------------------------------------------------------- events

    /** Queues CPU p's begin event. Posting a queued event, or in the past, is an error. */
    method PostBegin(p: CPU, time: int)
      requires p < |beginEvt| && beginEvt[p].None? && now <= time
      modifies this`beginEvt
      ensures beginEvt == old(beginEvt)[p := Some(time)]
    {
      beginEvt := beginEvt[p := Some(time)];
    }

    method PostEnd(p: CPU, time: int)
      requires p < |endEvt| && p < |endTime| && endEvt[p].None? && now <= time
      modifies this`endEvt, this`endTime
      ensures endEvt == old(endEvt)[p := Some(time)] && endTime == old(endTime)[p := time]
    {
      endEvt := endEvt[p := Some(time)];
      endTime := endTime[p := time];
    }

    // ---------------------------------------------------------------- dispatching

    method DispatchCpu(p: CPU)
      requires Consistent() && p < |currExe|
      modifies this`beginEvt, this`endEvt, this`endTask, this`dispatched
      ensures Consistent() && View() == DispatchOn(old(View()), p)
      ensures beginEvt == old(beginEvt)[p := Some(if switching[p] then endTime[p] else now)]
      ensures endEvt == if switching[p] then old(endEvt)[p := None] else old(endEvt)
      ensures dispatched == if switching[p] && old(endTask)[p].Some? then old(dispatched) - {old(endTask)[p].value} else old(dispatched)
    {
      DispatchOnCoherent(View(), p);
      assert CpuOnTime(View(), p) && CpuCoherent(View(), p);
      beginEvt := beginEvt[p := None];
      if switching[p] {
        PostBegin(p, endTime[p]);
        var task := endTask[p];
        endEvt := endEvt[p := None];
        if task.Some? {
          endTask := endTask[p := None];
          dispatched := dispatched - {task.value};
        }
      } else {
        PostBegin(p, now);
      }
      assert View().begin == old(View()).begin[p := View().begin[p]];
      assert View() == DispatchOn(old(View()), p);
    }

    /** A task that runs is dispatched, so the second test decides. */
    method HasNoCpu(t: Task, ghost s: State) returns (b: bool)
      requires Coherent(s) && s.currExe == currExe && s.dispatched == dispatched
      ensures b <==> t !in s.dispatched
    {
      var p := GetProcessor(t);
      if p.Some? {
        RunningIsDispatched(s, p.value);
      }
      b := p.None? && t !in dispatched;
    }

    /** The loop of CountNewTasks. */
    method CountUndispatched(ghost s: State) returns (n: nat)
      requires Coherent(s) && s.currExe == currExe && s.dispatched == dispatched && s.ready == sched.queue
      ensures n == Undispatched(s, s.K())
    {
      n := 0;
      var i := 0;
      while i < |currExe|
        invariant 0 <= i <= s.K()
        invariant n == Undispatched(s, i)
      {
        var t := sched.GetTaskN(i);
        if t.None? {
          break;
        }
        var waits := HasNoCpu(t.value, s);
        if waits {
          n := n + 1;
        }
        i := i + 1;
      }
    }

    /** How many of the first ncpu tasks of the ready queue have no CPU yet. */
    method CountNewTasks() returns (n: nat)
      requires Consistent()
      ensures n == |Waiting(View())|
    {
      WaitingSize(View());
      n := CountUndispatched(View());
    }

    /** The CPU of the first task from position i on that is dispatched. The search does not run out
        of tasks, so "Can't find enough tasks to deschedule!" is never raised. */
    method NextToDeschedule(i: nat, ghost s: State, ghost chosen: seq<CPU>) returns (c: CPU, next: nat)
      requires Coherent(s) && Sized(View()) && s.ready == View().ready && s.N() == |currExe|
      requires (forall h :: 0 <= h < |chosen| ==> chosen[h] < s.N()) && DispatchedOn(s, chosen, View())
      requires Picked(s, chosen, s.N(), i) && |chosen| < |Waiting(s)|
      ensures c < s.N() && Picked(s, chosen + [c], s.N(), next)
    {
      hide Coherent, Picked, DispatchedOn;
      next := i;
      while true
        invariant Picked(s, chosen, s.N(), next)
        decreases |s.ready| - next
      {
        EnoughToDeschedule(s, chosen, next);
        ScanStep(s, chosen, View(), next);
        var t := sched.GetTaskN(next);
        next := next + 1;
        if t.None? {
          assert false;
        } else if t.value in dispatched {
          return dispatched[t.value], next;
        }
      }
    }

    /** One turn of the global dispatch: a free CPU if there is one, or else the CPU of a task
        further down the queue. */
    method DispatchNext(f: nat, i: nat, ghost s: State, ghost chosen: seq<CPU>)
      returns (f': nat, i': nat, ghost c: CPU)
      requires Consistent() && Coherent(s) && s.ready == View().ready && s.N() == |currExe| && s.currExe == currExe
      requires (forall h :: 0 <= h < |chosen| ==> chosen[h] < s.N()) && DispatchedOn(s, chosen, View())
      requires Picked(s, chosen, f, i) && |chosen| < |Waiting(s)| && (f < s.N() ==> FreeIn(s, f))
      modifies this`beginEvt, this`endEvt, this`endTask, this`dispatched
      ensures Consistent() && c < s.N() && View() == DispatchOn(old(View()), c)
      ensures Picked(s, chosen + [c], f', i') && (f' < s.N() ==> FreeIn(s, f'))
    {
      ghost var s1 := View();
      f', i' := f, i;
      if f < |currExe| {
        c := f;
        DispatchCpu(f);
        f' := GetNextFreeProc(f + 1);
        DispatchedOnOneMore(s, chosen, s1, f);
        NextFree(s, chosen, View(), f, f');
      } else {
        var p;
        p, i' := NextToDeschedule(i, s, chosen);
        c := p;
        DispatchCpu(p);
      }
    }

    /** Dispatches the first ncpu tasks of the ready queue that have no CPU: on free CPUs first, then
        on those of tasks further down. No error can occur: the search never runs out of tasks to
        deschedule, and no event is posted twice or in the past. */
    method Dispatch() returns (ghost chosen: seq<CPU>)
      requires Consistent()
      modifies this`beginEvt, this`endEvt, this`endTask, this`dispatched
      ensures Valid()
      ensures (forall h :: 0 <= h < |chosen| ==> chosen[h] < |currExe|) && Selection(old(View()), chosen)
      ensures exists f': nat, i': nat :: Picked(old(View()), chosen, f', i')
      ensures forall c :: 0 <= c < |beginEvt| ==>
                beginEvt[c] == if c in chosen then Some(if switching[c] then endTime[c] else now) else old(beginEvt)[c]
      ensures View() == DispatchAll(old(View()), chosen)
      ensures Dispatched(old(View()), View()) && Next(old(View()), Redispatch, View())
    {
      hide Picked, DispatchedOn, FreeIn, Settled, CpuCoherent, CpuOnTime, TaskCoherent, Distinct;
      hide DispatchAll, DispatchOn, Selection, Dispatched, Next;
      ghost var s := View();
      assert Sized(s);
      hide Coherent, Sorted;
      var numNewTasks: nat := CountNewTasks();
      chosen := [];
      var i: nat := |currExe|;
      var f: nat := GetNextFreeProc(0);
      assert View() == s;
      NothingPicked(s, f);
      DispatchNone(s);
      while numNewTasks > 0
        invariant Consistent()
        invariant numNewTasks + |chosen| == |Waiting(s)|
        invariant Picked(s, chosen, f, i) && (f < s.N() ==> FreeIn(s, f))
        invariant forall h :: 0 <= h < |chosen| ==> chosen[h] < s.N()
        invariant View() == DispatchAll(s, chosen)
      {
        DispatchAllEffect(s, chosen);
        ghost var c;
        f, i, c := DispatchNext(f, i, s, chosen);
        DispatchAllMore(s, chosen, c);
        chosen := chosen + [c];
        numNewTasks := numNewTasks - 1;
      }
      DispatchDone(s, chosen, f, i);
      DispatchAllTimes(s, chosen);
    }

    // ---------------------------------------------------------------- what happens to tasks

    /** A task becomes ready; the caller dispatches afterwards. */
    method Activate(t: Task) returns (ok: bool, ghost h: nat)
      requires Consistent() && t !in sched.queue
      modifies sched
      ensures Consistent()
      ensures ok <==> t in old(sched.tasks)
      ensures h <= |old(sched.queue)| && View() == if ok then With(old(View()), t, h) else old(View())
    {
      ghost var s := View();
      ok, h := sched.Insert(t, now);
      if ok {
        WithCoherent(s, t, h);
      }
    }

    /** A task arrives. */
    method OnArrival(t: Task) returns (ok: bool, ghost h: nat)
      requires Valid() && t !in sched.queue
      modifies this`beginEvt, this`endEvt, this`endTask, this`dispatched, sched
      ensures Valid()
      ensures ok <==> t in old(sched.tasks)
      ensures if ok then Next(old(View()), Arrival(t, h), View()) else View() == old(View())
    {
      ghost var s := View();
      ok, h := Activate(t);
      if ok {
        ghost var _ := Dispatch();
      } else {
        h := 0;
      }
    }

    /** The CPU p loses its running task, which has left the ready queue, and looks for another. */
    method Release(t: Task, p: CPU, ghost s: State, ghost h: nat)
      requires sched.Valid() && Inv(s) && h < |s.ready| && s.ready[h] == t && RunsOn(s, t, p)
      requires View() == Without(s, h)
      modifies this`currExe, this`oldExe, this`dispatched, this`beginEvt, this`endEvt, this`endTask
      ensures Valid() && View() == Vacate(Without(s, h), t, p)
      ensures currExe == old(currExe)[p := None] && oldExe == old(oldExe)[t := p] && t !in dispatched
      ensures beginEvt == old(beginEvt)[p := Some(now)]
    {
      assert CpuCoherent(s, p);
      currExe := currExe[p := None];
      oldExe := oldExe[t := p];
      dispatched := dispatched - {t};
      GivenUpCoherent(s, h, p);
      assert View() == GivenUp(s, h, p);
      DispatchCpu(p);
      VacateKeepsInv(s, h, p);
    }

    /** The task t, which has just left the ready queue, leaves the CPU p on which it runs. */
    method LeaveCpu(t: Task, p: CPU, ghost s: State)
      requires sched.Valid() && Inv(s) && RunsOn(s, t, p) && Extracted(s, t, View())
      modifies this`currExe, this`oldExe, this`dispatched, this`beginEvt, this`endEvt, this`endTask
      ensures Valid() && Removed(s, t, View())
      ensures currExe == s.currExe[p := None] && oldExe == s.oldExe[t := p] && t !in dispatched
      ensures beginEvt == s.begin[p := Some(now)]
      ensures forall q :: 0 <= q < |currExe| && s.currExe[q] == Some(t) ==> q == p
    {
      hide Coherent, Settled, Vacate, Removed;
      RunningIsReady(s, t, p);
      ghost var h :| 0 <= h < |s.ready| && s.ready[h] == t && View() == Without(s, h);
      forall q | 0 <= q < |s.currExe| && s.currExe[q] == Some(t) ensures q == p {
        RunsOnOne(s, t, p, q);
      }
      Release(t, p, s, h);
      RemovedByVacating(s, t, h, p);
    }

    /** A task is suspended, which must not happen in the middle of its context switch. */
    method Suspend(t: Task) returns (ok: bool)
      requires Valid() && !MidSwitch(View(), t)
      modifies this`currExe, this`oldExe, this`dispatched, this`beginEvt, this`endEvt, this`endTask, sched
      ensures Valid()
      ensures ok <==> t in old(sched.tasks)
      ensures if ok then Removed(old(View()), t, View()) else View() == old(View())
      ensures ok ==> t !in sched.queue
      ensures ok && (forall p :: 0 <= p < |currExe| ==> old(currExe)[p] != Some(t)) ==>
                currExe == old(currExe) && oldExe == old(oldExe) && dispatched == old(dispatched) && beginEvt == old(beginEvt)
      ensures ok ==> forall p :: 0 <= p < |currExe| && old(currExe)[p] == Some(t) ==>
                currExe == old(currExe)[p := None] && oldExe == old(oldExe)[t := p] && t !in dispatched
                && beginEvt == old(beginEvt)[p := Some(now)]
    {
      hide Coherent, Settled, MidSwitch, Vacate, Removed;
      ghost var s := View();
      ok := sched.Extract(t);
      if !ok {
        assert View() == s;
        return;
      }
      assert Extracted(s, t, View());
      var p := GetProcessor(t);
      if p.Some? {
        LeaveCpu(t, p.value, s);
      } else {
        assert forall c :: !RunsOn(s, t, c);
        RemovedByExtraction(s, t, View());
        RemovedKeepsInv(s, t, View());
      }
    }

    /** A task ends; a task that runs nowhere is an error. */
    method OnEnd(t: Task) returns (ok: bool)
      requires Valid()
      modifies this`currExe, this`oldExe, this`dispatched, this`beginEvt, this`endEvt, this`endTask, sched
      ensures Valid()
      ensures ok <==> exists p :: RunsOn(old(View()), t, p)
      ensures if ok then Next(old(View()), Ending(t), View()) else View() == old(View())
      ensures ok ==> t !in sched.queue
      ensures forall p :: 0 <= p < |currExe| && old(currExe)[p] == Some(t) ==>
                currExe == old(currExe)[p := None] && oldExe == old(oldExe)[t := p] && t !in dispatched
                && beginEvt == old(beginEvt)[p := Some(now)]
    {
      assert Sized(View());
      hide Coherent, Settled, Vacate, Removed, Next;
      ghost var s := View();
      var p := GetProcessor(t);
      if p.None? {
        assert forall c :: !RunsOn(s, t, c);
        return false;
      }
      assert RunsOn(s, t, p.value);
      RunningIsReady(s, t, p.value);
      ok := sched.Extract(t);
      assert Extracted(s, t, View());
      LeaveCpu(t, p.value, s);
      EndingStep(s, t, p.value, View());
    }

    // ---------------------------------------------------------------- the dispatch events fire

    /** The clock moves, never past a queued event. */
    method Advance(t: int)
      requires Valid() && MayAdvance(View(), t)
      modifies this`now
      ensures Valid() && Next(old(View()), KernelRuns.Advance(t), View())
    {
      AdvanceKeepsInv(View(), t);
      now := t;
    }

    /** The first task of the ready queue that is not dispatched. */
    method FirstNotDispatched() returns (st: Option<Task>)
      ensures st == FirstUndispatched(View(), 0)
    {
      ghost var s := View();
      var i := 0;
      st := sched.GetTaskN(i);
      while st.Some? && st.value in dispatched
        invariant i <= |sched.queue| && st == sched.GetTaskN(i)
        invariant FirstUndispatched(s, 0) == FirstUndispatched(s, i)
        decreases |sched.queue| - i
      {
        i := i + 1;
        st := sched.GetTaskN(i);
      }
    }

    /** Takes the task off CPU p, whose begin event has just left the queue. */
    method Deschedule(p: CPU)
      requires Sized(View()) && p < |currExe|
      modifies this`currExe, this`oldExe, this`dispatched, this`beginEvt
      ensures View() == Freed(old(View()), p)
      ensures currExe == old(currExe)[p := None] && beginEvt == old(beginEvt)[p := None]
      ensures var dt := old(currExe)[p];
              if dt.Some? then oldExe == old(oldExe)[dt.value := p] && dispatched == old(dispatched) - {dt.value}
              else oldExe == old(oldExe) && dispatched == old(dispatched)
    {
      beginEvt := beginEvt[p := None];
      var dt := currExe[p];
      if dt.Some? {
        oldExe := oldExe[dt.value := p];
        currExe := currExe[p := None];
        dispatched := dispatched - {dt.value};
      }
    }

    /** Takes the first task that is not dispatched and starts the context switch to it. A task that
        last ran on another CPU pays for the migration. */
    method StartSwitch(p: CPU) returns (overhead: nat)
      requires Sized(View()) && p < |currExe| && endEvt[p].None?
      modifies this`dispatched, this`endEvt, this`endTask, this`endTime, this`switching
      ensures View() == BeginSwitch(old(View()), p, overhead)
      ensures endEvt == old(endEvt)[p := Some(now + overhead)] && endTime == old(endTime)[p := now + overhead]
      ensures switching == old(switching)[p := true] && endTask == old(endTask)[p := FirstUndispatched(old(View()), 0)]
      ensures var st := FirstUndispatched(old(View()), 0);
              overhead == contextSwitchDelay +
                          if st.Some? && st.value in oldExe && oldExe[st.value] != p then migrationDelay else 0
      ensures var st := endTask[p];
              && overhead == contextSwitchDelay +
                             (if st.Some? && st.value in oldExe && oldExe[st.value] != p then migrationDelay else 0)
              && (st.None? ==> forall u :: u in sched.queue ==> u in dispatched)
              && (st.Some? ==> st.value in dispatched && dispatched[st.value] == p
                               && exists i :: 0 <= i < |sched.queue| && sched.queue[i] == st.value
                                              && forall j :: 0 <= j < i ==> sched.queue[j] in dispatched)
    {
      var st := FirstNotDispatched();
      FirstUndispatchedIs(View(), 0);
      if st.Some? {
        dispatched := dispatched[st.value := p];
      }
      endTask := endTask[p := st];
      switching := switching[p := true];
      overhead := contextSwitchDelay;
      if st.Some? && st.value in oldExe && oldExe[st.value] != p {
        overhead := overhead + migrationDelay;
      }
      PostEnd(p, now + overhead);
    }

    /** CPU p's begin event fires. The switch takes the delay of a context switch, and that of a
        migration if the task last ran on another CPU. */
    method OnBeginDispatchMulti(p: CPU) returns (ghost overhead: nat)
      requires Valid() && p < |currExe| && beginEvt[p] == Some(now)
      modifies this`currExe, this`oldExe, this`dispatched, this`beginEvt, this`endEvt, this`endTask,
               this`endTime, this`switching
      ensures Valid()
      ensures Next(old(View()), BeginDispatch(p, overhead), View())
      ensures currExe == old(currExe)[p := None] && beginEvt == old(beginEvt)[p := None] && switching == old(switching)[p := true]
      ensures oldExe == if old(currExe)[p].Some? then old(oldExe)[old(currExe)[p].value := p] else old(oldExe)
      ensures endEvt == old(endEvt)[p := Some(now + overhead)]
      ensures var st := endTask[p];
              && overhead == contextSwitchDelay +
                             (if st.Some? && st.value in oldExe && oldExe[st.value] != p then migrationDelay else 0)
              && (st.None? ==> forall u :: u in sched.queue ==> u in dispatched)
              && (st.Some? ==> st.value in dispatched && dispatched[st.value] == p
                               && exists i :: 0 <= i < |sched.queue| && sched.queue[i] == st.value
                                              && forall j :: 0 <= j < i ==> sched.queue[j] in dispatched)
      ensures var s := Freed(old(View()), p);
              var st := FirstUndispatched(s, 0);
              overhead == contextSwitchDelay +
                          if st.Some? && st.value in s.oldExe && s.oldExe[st.value] != p then migrationDelay else 0
    {
      hide Settled, CpuCoherent, CpuOnTime, TaskCoherent, FirstUndispatched;
      ghost var s := View();
      FreedCoherent(s, p);
      Deschedule(p);
      overhead := StartSwitch(p);
      BeginKeepsInv(s, p, overhead);
      assert Next(s, BeginDispatch(p, overhead), View());
    }

    /** CPU p's end event fires: the task taken starts to run. */
    method OnEndDispatchMulti(p: CPU)
      requires Valid() && p < |currExe| && endEvt[p] == Some(now)
      modifies this`currExe, this`endEvt, this`switching
      ensures Valid() && Next(old(View()), EndDispatch(p), View())
      ensures currExe == old(currExe)[p := endTask[p]] && endEvt == old(endEvt)[p := None] && switching == old(switching)[p := false]
    {
      EndKeepsInv(View(), p);
      endEvt := endEvt[p := None];
      var st := endTask[p];
      currExe := currExe[p := st];
      switching := switching[p := false];
    }
  }

  /** At rest the i-th task of the queue runs exactly when there are more than i CPUs. */
  lemma FirstTasksRun(k: MRTKernel, i: nat)
    requires k.Valid()
    requires forall c :: 0 <= c < |k.currExe| ==> k.beginEvt[c] == None && !k.switching[c]
    requires i < |k.sched.queue|
    ensures i < |k.currExe| <==> exists c :: 0 <= c < |k.currExe| && k.currExe[c] == Some(k.sched.queue[i])
  {
    AtRestRunning(k.View());
    PrefixByPosition(k.View(), i);
    assert k.View().ready[i] == k.sched.queue[i];
  }

  /** Each on one CPU, and no other task runs. */
  lemma OnlyReadyTasksRun(k: MRTKernel, c: CPU)
    requires k.Valid()
    requires forall c :: 0 <= c < |k.currExe| ==> k.beginEvt[c] == None && !k.switching[c]
    requires c < |k.currExe| && k.currExe[c].Some?
    ensures k.currExe[c].value in k.sched.queue
    ensures forall d :: 0 <= d < |k.currExe| && d != c ==> k.currExe[d] != k.currExe[c]
  {
    var s := k.View();
    AtRestRunning(s);
    assert CpuCoherent(s, c) && TaskCoherent(s, s.currExe[c].value);
  }

  lemma PrefixByPosition(s: State, i: nat)
    requires Distinct(s.ready) && i < |s.ready|
    ensures s.ready[i] in s.Prefix() <==> i < s.N()
  {
    assert i < s.N() ==> i < s.K();
  }

  /** At rest whoever runs is at least as urgent as every ready task that does not: of a lower priority
      value, or of the same and inserted earlier, or then of a lower number. */
  lemma HighestPriorityRun(k: MRTKernel, c: CPU, u: Task)
    requires k.Valid()
    requires forall c :: 0 <= c < |k.currExe| ==> k.beginEvt[c] == None && !k.switching[c]
    requires c < |k.currExe| && k.currExe[c].Some?
    requires u in k.sched.queue && forall d :: 0 <= d < |k.currExe| ==> k.currExe[d] != Some(u)
    ensures k.currExe[c].value in k.sched.tasks && u in k.sched.tasks
    ensures var a, b := k.sched.tasks[k.currExe[c].value], k.sched.tasks[u];
            && Precedes(a, b)
            && a.priority <= b.priority
            && (a.priority == b.priority ==> a.insertTime <= b.insertTime)
            && (a.priority == b.priority && a.insertTime == b.insertTime ==> a.number < b.number)
  {
    OnlyReadyTasksRun(k, c);
    var i: nat :| i < |k.sched.queue| && k.sched.queue[i] == k.currExe[c].value;
    var j: nat :| j < |k.sched.queue| && k.sched.queue[j] == u;
    FirstTasksRun(k, i);
    FirstTasksRun(k, j);
    OrderOfQueue(k.sched, i, j);
  }
}
