/** The scheduler's ready queue, kept in priority order. */
module ReadyQueue {
  import opened Common
  import opened KernelProofs
  import opened KernelState

  datatype TaskModel = TaskModel(priority: int, insertTime: int, number: int, active: bool)

  /** By priority, then insertion time, then task number. */
  predicate Precedes(a: TaskModel, b: TaskModel)
  {
    || a.priority < b.priority
    || (a.priority == b.priority && a.insertTime < b.insertTime)
    || (a.priority == b.priority && a.insertTime == b.insertTime && a.number < b.number)
  }

  lemma PrecedesIsOrder(a: TaskModel, b: TaskModel, c: TaskModel)
    ensures Precedes(a, b) && Precedes(b, c) ==> Precedes(a, c)
    ensures !Precedes(a, a)
    ensures a.number != b.number ==> Precedes(a, b) || Precedes(b, a)
  {}

  ghost predicate Sorted(tasks: map<Task, TaskModel>, queue: seq<Task>)
    requires forall i :: 0 <= i < |queue| ==> queue[i] in tasks
  {
    forall i, j :: 0 <= i < j < |queue| ==> Precedes(tasks[queue[i]], tasks[queue[j]])
  }

  ghost predicate NumbersDiffer(tasks: map<Task, TaskModel>)
  {
    forall t, u :: t in tasks && u in tasks && tasks[t].number == tasks[u].number ==> t == u
  }

  class Scheduler {
    var tasks: map<Task, TaskModel>
    var queue: seq<Task>

    ghost predicate Valid()
      reads this
    {
      && NumbersDiffer(tasks)
      && (forall i :: 0 <= i < |queue| ==> queue[i] in tasks)
      && Sorted(tasks, queue)
      && forall t :: t in tasks ==> (tasks[t].active <==> t in queue)
    }

    constructor ()
      ensures Valid() && tasks == map[] && queue == []
    {
      tasks, queue := map[], [];
    }

    /** Registers a task; a second registration is an error. */
    method EnqueueModel(t: Task, priority: int, number: int) returns (ok: bool)
      requires Valid() && forall u :: u in tasks ==> tasks[u].number != number
      modifies this
      ensures Valid() && queue == old(queue)
      ensures ok <==> t !in old(tasks)
      ensures tasks == if ok then old(tasks)[t := TaskModel(priority, 0, number, false)] else old(tasks)
    {
      ok := t !in tasks;
      if ok {
        tasks := tasks[t := TaskModel(priority, 0, number, false)];
      }
    }

    /** Puts a registered task in its place in the queue; the caller never does so twice. */
    method Insert(t: Task, now: int) returns (ok: bool, ghost h: nat)
      requires Valid() && t !in queue
      modifies this
      ensures Valid()
      ensures ok <==> t in old(tasks)
      ensures !ok ==> tasks == old(tasks) && queue == old(queue) && h == 0
      ensures ok ==> h <= |old(queue)| && queue == old(queue)[..h] + [t] + old(queue)[h..]
      ensures ok ==> tasks == old(tasks)[t := old(tasks)[t].(insertTime := now, active := true)]
    {
      h := 0;
      if t !in tasks {
        return false, h;
      }
      var model := tasks[t].(insertTime := now, active := true);
      tasks := tasks[t := model];
      var i := 0;
      while i < |queue| && Precedes(tasks[queue[i]], model)
        invariant 0 <= i <= |queue|
        invariant forall j :: 0 <= j < i ==> Precedes(tasks[queue[j]], model)
      {
        i := i + 1;
      }
      InsertionSorted(tasks, queue, t, i);
      queue := queue[..i] + [t] + queue[i..];
      return true, i;
    }

    /** Takes a registered task out of the queue; if it is not there the queue stays. */
    method Extract(t: Task) returns (ok: bool)
      requires Valid()
      modifies this
      ensures Valid()
      ensures ok <==> t in old(tasks)
      ensures !ok ==> tasks == old(tasks) && queue == old(queue)
      ensures ok ==> tasks == old(tasks)[t := old(tasks)[t].(active := false)]
      ensures ok ==> t !in queue
      ensures if t in old(queue)
              then exists h :: 0 <= h < |old(queue)| && old(queue)[h] == t && queue == old(queue)[..h] + old(queue)[h + 1..]
              else queue == old(queue)
    {
      if t !in tasks {
        return false;
      }
      var i := 0;
      while i < |queue| && (Precedes(tasks[queue[i]], tasks[t]) || Precedes(tasks[t], tasks[queue[i]]))
        invariant 0 <= i <= |queue|
        invariant forall j :: 0 <= j < i ==> queue[j] != t
      {
        i := i + 1;
      }
      if i < |queue| {
        assert queue[i] == t;
        ExtractionSorted(tasks, queue, i);
        queue := queue[..i] + queue[i + 1..];
      }
      tasks := tasks[t := tasks[t].(active := false)];
      return true;
    }

    function GetTaskN(n: nat): (t: Option<Task>)
      reads this
      ensures t.Some? <==> n < |queue|
      ensures t.Some? ==> t.value == queue[n]
    {
      if |queue| <= n then None else Some(queue[n])
    }
  }

  lemma InsertionSorted(tasks: map<Task, TaskModel>, queue: seq<Task>, t: Task, h: nat)
    requires NumbersDiffer(tasks) && t in tasks && t !in queue && h <= |queue|
    requires (forall i :: 0 <= i < |queue| ==> queue[i] in tasks) && Sorted(tasks, queue)
    requires forall j :: 0 <= j < h ==> Precedes(tasks[queue[j]], tasks[t])
    requires h < |queue| ==> !Precedes(tasks[queue[h]], tasks[t])
    ensures var q := queue[..h] + [t] + queue[h..];
            (forall i :: 0 <= i < |q| ==> q[i] in tasks) && Sorted(tasks, q)
            && forall u :: u in q <==> u in queue || u == t
  {
    var q := queue[..h] + [t] + queue[h..];
    forall j | h <= j < |queue| ensures Precedes(tasks[t], tasks[queue[j]]) {
      PrecedesIsOrder(tasks[queue[h]], tasks[t], tasks[t]);
      if h < j {
        PrecedesIsOrder(tasks[t], tasks[queue[h]], tasks[queue[j]]);
      }
    }
    forall u | u in queue ensures u in q {
      var i :| 0 <= i < |queue| && queue[i] == u;
      assert q[if i < h then i else i + 1] == u;
    }
    assert q[h] == t;
  }

  lemma ExtractionSorted(tasks: map<Task, TaskModel>, queue: seq<Task>, h: nat)
    requires h < |queue|
    requires (forall i :: 0 <= i < |queue| ==> queue[i] in tasks) && Sorted(tasks, queue)
    ensures var q := queue[..h] + queue[h + 1..];
            (forall i :: 0 <= i < |q| ==> q[i] in tasks) && Sorted(tasks, q)
            && forall u :: u in q <==> u in queue && u != queue[h]
  {
    var q := queue[..h] + queue[h + 1..];
    forall u | u in queue && u != queue[h] ensures u in q {
      var i :| 0 <= i < |queue| && queue[i] == u;
      assert q[if i < h then i else i - 1] == u;
    }
    forall i | 0 <= i < |q| ensures q[i] != queue[h] {
      var j := if i < h then i else i + 1;
      PrecedesIsOrder(tasks[queue[h]], tasks[queue[j]], tasks[queue[h]]);
    }
  }

  /** A sorted queue has no repetitions. */
  lemma SortedDistinct(tasks: map<Task, TaskModel>, queue: seq<Task>)
    requires (forall i :: 0 <= i < |queue| ==> queue[i] in tasks) && Sorted(tasks, queue)
    ensures Distinct(queue)
  {
    forall i, j | 0 <= i < j < |queue| ensures queue[i] != queue[j] {
      PrecedesIsOrder(tasks[queue[i]], tasks[queue[j]], tasks[queue[i]]);
    }
  }

  /** The queue runs from the lowest priority value to the highest; among equals from the earliest
      insertion to the latest, and then by task number. */
  lemma OrderOfQueue(s: Scheduler, i: nat, j: nat)
    requires s.Valid() && i < j < |s.queue|
    ensures s.queue[i] in s.tasks && s.queue[j] in s.tasks
    ensures var a, b := s.tasks[s.queue[i]], s.tasks[s.queue[j]];
            && a.priority <= b.priority
            && (a.priority == b.priority ==> a.insertTime <= b.insertTime)
            && (a.priority == b.priority && a.insertTime == b.insertTime ==> a.number < b.number)
  {
    assert Precedes(s.tasks[s.queue[i]], s.tasks[s.queue[j]]);
  }

  /** The queued tasks that come before t. */
  ghost function Ahead(s: Scheduler, t: Task): set<Task>
    requires s.Valid() && t in s.tasks
    reads s
  {
    set u | u in s.queue && Precedes(s.tasks[u], s.tasks[t])
  }

  /** The n-th task of the queue is the one with exactly n queued tasks ahead of it, in the
      scheduler's order; the first is the one that precedes all the others. */
  lemma TaskNByRank(s: Scheduler, t: Task, n: nat)
    requires s.Valid() && t in s.tasks
    ensures s.GetTaskN(n) == Some(t) <==> t in s.queue && |Ahead(s, t)| == n
  {
    if t in s.queue {
      var i: nat :| i < |s.queue| && s.queue[i] == t;
      AheadOf(s, i);
    }
    if n < |s.queue| {
      AheadOf(s, n);
    }
  }

  lemma AheadOf(s: Scheduler, i: nat)
    requires s.Valid() && i < |s.queue|
    ensures |Ahead(s, s.queue[i])| == i
  {
    var before := set j | 0 <= j < i :: s.queue[j];
    SortedDistinct(s.tasks, s.queue);
    DistinctSize(s.queue, i);
    forall u | u in Ahead(s, s.queue[i]) ensures u in before {
      var j :| 0 <= j < |s.queue| && s.queue[j] == u;
      PrecedesIsOrder(s.tasks[s.queue[i]], s.tasks[u], s.tasks[s.queue[i]]);
    }
    assert Ahead(s, s.queue[i]) == before;
  }
}
