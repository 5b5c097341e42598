/** The states of the global multiprocessor kernel and what each of its operations does to them. */
module KernelState {
  import opened Common

  type CPU = nat

  /** What the kernel remembers. A task absent from `dispatched` or `oldExe` is on no CPU there.
      `begin` and `end` hold the time of the CPU's dispatch events while they are queued; `endTask`
      and `endTime` are the end event's fields, which outlive its stay in the queue. */
  datatype State = State(
    now: int,
    ready: seq<Task>,
    currExe: seq<Option<Task>>,
    dispatched: map<Task, CPU>,
    oldExe: map<Task, CPU>,
    switching: seq<bool>,
    begin: seq<Option<int>>,
    end: seq<Option<int>>,
    endTask: seq<Option<Task>>,
    endTime: seq<int>)
  {
    function N(): nat {
      |currExe|
    }

    /** The number of tasks that ought to be on a CPU. */
    function K(): nat {
      if |ready| < N() then |ready| else N()
    }

    ghost function Prefix(): set<Task> {
      set i | 0 <= i < K() :: ready[i]
    }
  }

  ghost predicate Distinct<T>(s: seq<T>)
  {
    forall i, j :: 0 <= i < j < |s| ==> s[i] != s[j]
  }

  // ------------------------------------------------------------------ the operations

  /** Dispatching on one CPU: its begin event is queued, now or at the end of the context switch
      in progress, whose task is let go. */
  function DispatchOn(s: State, p: CPU): State
    requires Sized(s) && p < s.N()
  {
    if s.switching[p] then
      s.(begin := s.begin[p := Some(s.endTime[p])],
         end := s.end[p := None],
         dispatched := if s.endTask[p].Some? then s.dispatched - {s.endTask[p].value} else s.dispatched,
         endTask := s.endTask[p := None])
    else
      s.(begin := s.begin[p := Some(s.now)])
  }

  ghost function DispatchAll(s: State, cs: seq<CPU>): (s': State)
    requires Sized(s) && forall i :: 0 <= i < |cs| ==> cs[i] < s.N()
    ensures Sized(s') && s'.N() == s.N() && s'.ready == s.ready && s'.now == s.now && s'.currExe == s.currExe
    ensures s'.switching == s.switching && s'.endTime == s.endTime && s'.oldExe == s.oldExe
  {
    if cs == [] then s else DispatchOn(DispatchAll(s, cs[..|cs| - 1]), cs[|cs| - 1])
  }

  /** The position of a task in the ready queue is `h`. */
  function Without(s: State, h: nat): State
    requires h < |s.ready|
  {
    s.(ready := s.ready[..h] + s.ready[h + 1..])
  }

  function With(s: State, t: Task, h: nat): State
    requires h <= |s.ready|
  {
    s.(ready := s.ready[..h] + [t] + s.ready[h..])
  }

  /** The CPU p stops running the task t and looks for another. */
  function Vacate(s: State, t: Task, p: CPU): State
    requires Sized(s) && p < s.N()
  {
    DispatchOn(s.(currExe := s.currExe[p := None], oldExe := s.oldExe[t := p], dispatched := s.dispatched - {t}), p)
  }

  /** The first task of the ready queue, from the i-th on, that is not dispatched. */
  function FirstUndispatched(s: State, i: nat): (t: Option<Task>)
    requires i <= |s.ready|
    decreases |s.ready| - i
  {
    if i == |s.ready| then None
    else if s.ready[i] !in s.dispatched then Some(s.ready[i])
    else FirstUndispatched(s, i + 1)
  }

  /** The begin event of CPU p has come up: the running task is descheduled. */
  function Freed(s: State, p: CPU): State
    requires Sized(s) && p < s.N()
  {
    var s1 := s.(begin := s.begin[p := None]);
    if s.currExe[p].None? then s1
    else
      var dt := s.currExe[p].value;
      s1.(oldExe := s.oldExe[dt := p], currExe := s.currExe[p := None], dispatched := s.dispatched - {dt})
  }

  /** And the context switch to the first task that is not dispatched starts. */
  function BeginSwitch(s: State, p: CPU, overhead: int): State
    requires Sized(s) && p < s.N()
  {
    var st := FirstUndispatched(s, 0);
    s.(dispatched := if st.Some? then s.dispatched[st.value := p] else s.dispatched,
       endTask := s.endTask[p := st],
       switching := s.switching[p := true],
       end := s.end[p := Some(s.now + overhead)],
       endTime := s.endTime[p := s.now + overhead])
  }

  function EndSwitch(s: State, p: CPU): State
    requires Sized(s) && p < s.N()
  {
    s.(end := s.end[p := None], currExe := s.currExe[p := s.endTask[p]], switching := s.switching[p := false])
  }

  // ------------------------------------------------------------------ the invariant

  predicate Sized(s: State)
  {
    |s.switching| == |s.begin| == |s.end| == |s.endTask| == |s.endTime| == s.N()
  }

  /** Task t is on CPU c, either running there or about to. */
  ghost predicate On(s: State, t: Task, c: CPU)
  {
    t in s.dispatched && s.dispatched[t] == c
  }

  /** What holds of one CPU. */
  ghost predicate CpuCoherent(s: State, c: CPU)
    requires Sized(s) && c < s.N()
  {
    && (s.currExe[c].Some? ==> On(s, s.currExe[c].value, c) && !s.switching[c])
    && (s.end[c].Some? <==> s.switching[c] && s.begin[c].None?)
    && (s.end[c].Some? && s.endTask[c].Some? ==> On(s, s.endTask[c].value, c))
    && (s.switching[c] && s.begin[c].Some? ==> s.endTask[c].None? && s.begin[c].value == s.endTime[c])
  }

  /** No queued event lies in the past. */
  ghost predicate CpuOnTime(s: State, c: CPU)
    requires Sized(s) && c < s.N()
  {
    && (s.begin[c].Some? ==> s.now <= s.begin[c].value)
    && (s.switching[c] ==> s.now <= s.endTime[c])
    && (s.end[c].Some? ==> s.end[c].value == s.endTime[c])
  }

  /** What holds of one dispatched task. */
  ghost predicate TaskCoherent(s: State, t: Task)
    requires Sized(s) && t in s.dispatched
  {
    var c := s.dispatched[t];
    && t in s.ready && c < s.N()
    && (s.currExe[c] == Some(t) || (s.end[c].Some? && s.endTask[c] == Some(t)))
  }

  ghost predicate Coherent(s: State)
  {
    && Sized(s) && Distinct(s.ready)
    && (forall c :: 0 <= c < s.N() ==> CpuCoherent(s, c) && CpuOnTime(s, c))
    && (forall t :: t in s.dispatched ==> TaskCoherent(s, t))
  }

  /** CPUs hosting one of the tasks in ts. */
  ghost function Hosts(s: State, ts: set<Task>): set<CPU>
  {
    set t | t in s.dispatched && t in ts :: s.dispatched[t]
  }

  predicate IsCpu(s: State, c: CPU)
  {
    c < s.N()
  }

  ghost function Cpus(s: State): set<CPU>
  {
    set c: CPU | 0 <= c < s.N() && IsCpu(s, c)
  }

  /** CPUs with no queued begin event that host none of the tasks that ought to run. */
  ghost function Spare(s: State): set<CPU>
    requires Sized(s)
  {
    set c: CPU | 0 <= c < s.N() && s.begin[c].None? && c !in Hosts(s, s.Prefix())
  }

  /** The scheduling invariant: a task that ought not to be on its CPU is about to be replaced,
      and there are spare CPUs only in so far as there are not enough tasks. */
  ghost predicate Settled(s: State)
    requires Sized(s)
  {
    && (forall t :: t in s.dispatched && t !in s.Prefix() ==>
          s.dispatched[t] < s.N() && s.begin[s.dispatched[t]].Some?)
    && (Spare(s) == {} || |Spare(s)| + |s.ready| <= s.N())
  }

  ghost predicate Inv(s: State)
  {
    Coherent(s) && Settled(s)
  }
}
