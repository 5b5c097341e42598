/** The constant bandwidth server: its budget, deadline and virtual time across the events that
    drive it. */
module ConstantBandwidth {
  import opened CapacityTimers
  import opened Common
  import opened ServerStatus

  /** What an idle server with a deadline still ahead does: start afresh, or keep the deadline. */
  datatype Policy = Original | ReuseDeadline

  // ------------------------------------------------------------------ arithmetic

  /** Moving the virtual time along by P/Q per tick accounts for dt more ticks of work. */
  lemma VirtualTimeStep(v: real, start: int, w: int, dt: int, Q: int, P: int, der: real)
    requires (v - start as real) * Q as real == (w * P) as real
    requires der * Q as real == P as real
    ensures (v + dt as real * der - start as real) * Q as real == ((w + dt) * P) as real
  {
    var q, x := Q as real, dt as real;
    Spread(v - start as real, x * der, q);
    assert x * der * q == x * (der * q);
    assert (w + dt) * P == w * P + dt * P;
    assert ((dt * P) as real) == x * P as real;
  }

  lemma ScaleReal(a: real, b: real, q: real)
    requires q > 0.0
    ensures a <= b <==> a * q <= b * q
    ensures a < b <==> a * q < b * q
  {}

  method Rate(P: int, Q: int) returns (der: real)
    requires Q >= 1
    ensures der * Q as real == P as real
  {
    der := P as real / Q as real;
  }

  lemma MulMono(a: int, b: int, c: int)
    requires a <= b && 0 <= c
    ensures a * c <= b * c
  {}

  /** The server's accounts since it last left idleness at `start`: the work done, the budget granted
      and the time span granted for it. */
  datatype Account = Account(start: int, work: int, granted: int, span: int, periods: int)

  /** Never more budget than the bandwidth Q/P allows over the span; exactly that if every grant was
      a full one. */
  ghost predicate WithinBandwidth(a: Account, Q: int, P: int, full: bool)
  {
    && 0 <= a.work && a.granted * P <= a.span * Q
    && (full ==> 1 <= a.periods && a.granted == a.periods * Q && a.span == a.periods * P)
  }

  lemma Recharge(a: Account, Q: int, P: int, full: bool)
    requires WithinBandwidth(a, Q, P, full)
    ensures WithinBandwidth(a.(granted := a.granted + Q, span := a.span + P, periods := a.periods + 1), Q, P, full)
  {}

  /** The budget that the bandwidth allows for the time left until a deadline. */
  function BudgetUntil(left: int, Q: int, P: int): int
    requires 0 < left && 1 <= Q && 1 <= P
  {
    left * Q / P
  }

  /** Budget and deadline of a server leaving idleness: its old deadline with the budget the bandwidth
      allows until then, if it may reuse it and that is a whole tick at least; or else anew. */
  function Renewed(policy: Policy, now: int, absDline: int, d: int, Q: int, P: int): (int, int)
    requires 1 <= Q && 1 <= P
  {
    if policy == ReuseDeadline && now < absDline && BudgetUntil(absDline - now, Q, P) != 0
    then (BudgetUntil(absDline - now, Q, P), d)
    else (Q, now + P)
  }

  /** With the deadline `left` ticks ahead and the bandwidth allowing a whole tick until then, the deadline
      stays and the budget is what the bandwidth allows, short of it by less than a tick. */
  lemma RenewedIs(policy: Policy, now: int, absDline: int, d: int, Q: int, P: int)
    requires 1 <= Q && 1 <= P
    ensures var left, (cap, dline) := absDline - now, Renewed(policy, now, absDline, d, Q, P);
            if policy == ReuseDeadline && left > 0 && left * Q >= P
            then dline == d && cap * P <= left * Q < (cap + 1) * P
            else cap == Q && dline == now + P
  {
    hide BudgetUntil;
    if absDline > now {
      BudgetUntilIs(absDline - now, Q, P);
    }
  }

  lemma BudgetUntilIs(left: int, Q: int, P: int)
    requires 0 < left && 1 <= Q && 1 <= P
    ensures var cap := BudgetUntil(left, Q, P); cap * P <= left * Q < (cap + 1) * P && (cap != 0 <==> left * Q >= P)
  {
    MulMono(0, left, Q);
    Quotient(left * Q, P);
  }

  lemma Quotient(w: int, p: int)
    requires 0 <= w && 1 <= p
    ensures w / p * p <= w < (w / p + 1) * p && (w / p != 0 <==> w >= p)
  {
    Multiples(w / p, w % p, p, w);
  }

  lemma Multiples(q: int, r: int, p: int, w: int)
    requires 1 <= p && 0 <= r < p && 0 <= q && w == q * p + r
    ensures q * p <= w < (q + 1) * p && (q != 0 <==> w >= p)
  {
    if q != 0 {
      MulMono(1, q, p);
    }
  }

  /** A busy run starts within the bandwidth, its virtual time at the present: with a full budget
      for a period, or with what the bandwidth allows until the deadline. */
  lemma FreshRun(start: int, left: int, Q: int, P: int, full: bool)
    requires 1 <= Q && 1 <= P
    ensures WithinBandwidth(Account(start, 0, Q, P, 1), Q, P, full)
    ensures 0 < left ==> 0 <= BudgetUntil(left, Q, P)
                         && WithinBandwidth(Account(start, 0, BudgetUntil(left, Q, P), left, 1), Q, P, false)
    ensures VirtualTimeIs(start as real, start, 0, Q, P)
  {}

  /** The work of a busy run stays below the bandwidth until the instant e, but for one tick. */
  ghost predicate WorkBelow(a: Account, e: int, Q: int, P: int)
  {
    a.work * P < Q * (e - a.start + 1)
  }

  ghost predicate VirtualTimeIs(v: real, start: int, work: int, Q: int, P: int)
  {
    (v - start as real) * Q as real == (work * P) as real
  }

  /** The virtual time has not passed the end of the span unless more work was done than granted. */
  lemma VirtualTimeWithinSpan(v: real, a: Account, work: int, Q: int, P: int)
    requires Q >= 1 && P >= 1 && VirtualTimeIs(v, a.start, work, Q, P)
    requires a.granted * P <= a.span * Q && work <= a.granted
    ensures v <= (a.start + a.span) as real
  {
    MulMono(work, a.granted, P);
    ScaleReal(v - a.start as real, a.span as real, Q as real);
    assert (a.span * Q) as real == a.span as real * Q as real;
  }

  lemma WorkBefore(v: real, a: Account, Q: int, P: int, t: int)
    requires Q >= 1 && VirtualTimeIs(v, a.start, a.work, Q, P) && v < (t + 1) as real
    ensures WorkBelow(a, t, Q, P)
  {
    ScaleReal(v - a.start as real, (t - a.start + 1) as real, Q as real);
    assert (Q * (t - a.start + 1)) as real == (t - a.start + 1) as real * Q as real;
  }

  /** When all the budget granted has been used, the virtual time is past by the end of the span. */
  lemma PastVirtualTime(v: real, a: Account, Q: int, P: int, full: bool)
    requires Q >= 1 && P >= 1 && VirtualTimeIs(v, a.start, a.work, Q, P)
    requires WithinBandwidth(a, Q, P, full) && a.work == a.granted
    ensures v <= (a.start + a.span) as real
    ensures WorkBelow(a, a.start + a.span, Q, P)
  {
    VirtualTimeWithinSpan(v, a, a.work, Q, P);
    WorkBefore(v, a, Q, P, a.start + a.span);
  }

  class CBServer {
    const Q: int
    const P: int
    const HR: bool
    const policy: Policy
    const vtime: CapacityTimer

    var now: int
    var status: Status
    var d: int
    var absDline: int
    var cap: int
    var lastTime: int
    var queue: seq<Task>
    var currExe: Option<Task>
    var bandExEvt: Option<int>
    var replEvt: Option<int>
    var idleEvt: Option<int>
    var dispatchEvt: Option<int>

    ghost var account: Account
    ghost var idleSince: int

    /** The work done since the busy run began. */
    ghost function Work(): int
      reads this
    {
      if status == Executing then account.work + (now - lastTime) else account.work
    }

    /** The budget left. */
    ghost function Budget(): int
      reads this
    {
      if status == Executing then cap - (now - lastTime) else cap
    }

    ghost function VirtualTime(): real
      reads this, vtime
    {
      vtime.View().Value(now)
    }

    ghost predicate Full()
      reads this
    {
      policy == Original
    }

    // ---------------------------------------------------------------- the invariant

    ghost predicate EventsMatchStatus()
      reads this, vtime
    {
      && (bandExEvt == if status == Executing then Some(lastTime + cap) else None)
      && (idleEvt.Some? <==> status == Releasing)
      && (status == Recharging ==> HR && replEvt.Some?)
      && (replEvt.Some? ==> status == Recharging || (!HR && status == Ready && replEvt.value == now))
      && (dispatchEvt.Some? ==> status == Executing && dispatchEvt.value == now)
      && (vtime.running <==> status == Executing)
    }

    ghost predicate TasksMatchStatus()
      reads this
    {
      && (currExe.Some? ==> status == Executing && currExe.value in queue)
      && (status == Executing && dispatchEvt.None? ==> currExe.Some?)
    }

    ghost predicate BusyRun()
      reads this, vtime
    {
      && 0 <= account.start <= now && absDline == d
      && WithinBandwidth(account, Q, P, Full())
      && VirtualTimeIs(vtime.value, account.start, account.work, Q, P)
      && (status == Recharging ==> cap == 0 && account.work == account.granted
                                   && d == account.start + account.span + P
                                   && replEvt == Some(account.start + account.span) && now <= replEvt.value)
      && (status != Recharging ==> 0 <= cap && account.work + cap == account.granted
                                   && d == account.start + account.span)
      && (status == Executing ==> lastTime <= now <= lastTime + cap && vtime.lastTime == lastTime
                                  && vtime.der * Q as real == P as real)
      && (status == Releasing ==> idleEvt == Some(vtime.value.Floor) && now <= idleEvt.value)
      && (HR && Full() ==> account.start + account.span - P <= now)
    }

    /** Budget, deadline, virtual time and events agree. */
    ghost predicate Accounts()
      reads this, vtime
    {
      && Q >= 1 && P >= 1 && 0 <= now
      && EventsMatchStatus()
      && (status != Idle ==> BusyRun())
      && (status == Idle ==> WorkBelow(account, idleSince, Q, P) && idleSince <= now
                             && (absDline == d || absDline == 0))
    }

    ghost predicate Valid()
      reads this, vtime
    {
      Accounts() && TasksMatchStatus()
    }

    constructor (q: int, p: int, deadline: int, hr: bool, idlePolicy: Policy)
      requires q >= 1 && p >= 1
      ensures Valid() && status == Idle && queue == [] && now == 0
      ensures Q == q && P == p && HR == hr && policy == idlePolicy && fresh(vtime)
    {
      Q, P, HR, policy := q, p, hr, idlePolicy;
      now, status, d, absDline, cap, lastTime := 0, Idle, deadline, 0, q, 0;
      queue, currExe := [], None;
      bandExEvt, replEvt, idleEvt, dispatchEvt := None, None, None, None;
      account, idleSince := Account(0, 0, 0, 0, 0), 0;
      vtime := new CapacityTimer();
    }

    // ---------------------------------------------------------------- transitions

    /** Budget, deadline and accounts of a new busy run. */
    method StartBusyRun()
      requires Accounts() && status == Idle
      modifies this`status, this`cap, this`d, this`absDline, this`account, vtime
      ensures Accounts() && status == Ready
      ensures account == Account(now, 0, cap, d - now, 1)
      ensures (cap, d) == Renewed(policy, now, old(absDline), old(d), Q, P)
      ensures VirtualTime() == now as real
    {
      hide WithinBandwidth, VirtualTimeIs, BudgetUntil;
      FreshRun(now, absDline - now, Q, P, Full());
      status := Ready;
      cap := 0;
      if policy == ReuseDeadline && now < absDline {
        cap := BudgetUntil(absDline - now, Q, P);
      }
      if cap == 0 {
        cap := Q;
        d := now + P;
        absDline := d;
      }
      vtime.SetValue(now as real);
      account := Account(now, 0, cap, d - now, 1);
    }

    method IdleReady()
      requires Accounts() && status == Idle
      modifies this`status, this`cap, this`d, this`absDline, this`account, vtime
      ensures Accounts() && status == Ready
      ensures account == Account(now, 0, cap, d - now, 1)
      ensures (cap, d) == Renewed(policy, now, old(absDline), old(d), Q, P)
      ensures var left := old(absDline) - now;
              if policy == ReuseDeadline && left > 0 && left * Q >= P
              then d == old(d) && cap * P <= left * Q < (cap + 1) * P
              else cap == Q && d == now + P
      ensures VirtualTime() == now as real
    {
      hide WithinBandwidth, VirtualTimeIs, WorkBelow, Renewed;
      RenewedIs(policy, now, absDline, d, Q, P);
      StartBusyRun();
    }

    method ReleasingReady()
      requires Accounts() && status == Releasing
      modifies this`status, this`idleEvt
      ensures Accounts() && status == Ready && idleEvt == None
    {
      hide WithinBandwidth, VirtualTimeIs;
      status := Ready;
      idleEvt := None;
    }

    method ReadyExecuting()
      requires Accounts() && status == Ready && replEvt.None?
      modifies this`status, this`lastTime, this`bandExEvt, vtime
      ensures Accounts() && status == Executing && lastTime == now && bandExEvt == Some(now + cap)
      ensures VirtualTime() == old(VirtualTime())
    {
      hide WithinBandwidth, VirtualTimeIs;
      status := Executing;
      lastTime := now;
      var der := Rate(P, Q);
      vtime.Start(der, now);
      bandExEvt := Some(lastTime + cap);
    }

    /** What every way out of execution does to the budget and the virtual time. */
    method StopExecuting()
      requires Accounts() && status == Executing
      modifies this`cap, this`bandExEvt, this`account, vtime
      ensures cap == old(Budget()) && bandExEvt == None && account == old(account).(work := old(Work()))
      ensures !vtime.running && vtime.value == old(VirtualTime())
      ensures VirtualTimeIs(vtime.value, account.start, account.work, Q, P)
    {
      VirtualTimeStep(vtime.value, account.start, account.work, now - lastTime, Q, P, vtime.der);
      account := account.(work := account.work + (now - lastTime));
      cap := cap - (now - lastTime);
      var _ := vtime.Stop(now);
      bandExEvt := None;
    }

    method ExecutingReady()
      requires Accounts() && status == Executing && dispatchEvt.None?
      modifies this`status, this`cap, this`bandExEvt, this`account, vtime
      ensures Accounts() && status == Ready
      ensures cap == old(Budget()) && account == old(account).(work := old(Work())) && VirtualTime() == old(VirtualTime())
    {
      StopExecuting();
      status := Ready;
    }

    /** Out of work: idle at once if the virtual time is past, or else when it will be. */
    method ExecutingReleasing()
      requires Accounts() && status == Executing && dispatchEvt.None?
      modifies this`status, this`cap, this`bandExEvt, this`idleEvt, this`account, this`idleSince, vtime
      ensures Accounts() && (status == Idle || status == Releasing)
      ensures status == Idle <==> old(VirtualTime()) <= now as real
      ensures status == Idle ==> idleSince == now && WorkBelow(account, now, Q, P)
      ensures status == Releasing ==> idleEvt == Some(old(VirtualTime()).Floor)
      ensures cap == old(Budget()) && account == old(account).(work := old(Work())) && vtime.value == old(VirtualTime())
    {
      StopExecuting();
      if vtime.GetValue(now) <= now as real {
        WorkBefore(vtime.value, account, Q, P, now);
        status := Idle;
        idleSince := now;
      } else {
        idleEvt := Some(vtime.GetValue(now).Floor);
        status := Releasing;
      }
    }

    method ReleasingIdle()
      requires Accounts() && status == Releasing && idleEvt == Some(now)
      modifies this`status, this`idleEvt, this`idleSince
      ensures Accounts() && status == Idle && idleSince == now && idleEvt == None && WorkBelow(account, now, Q, P)
    {
      WorkBefore(vtime.value, account, Q, P, now);
      idleEvt := None;
      status := Idle;
      idleSince := now;
    }

    /** Out of budget. A soft server starts on the budget of its next deadline at once; a hard one
        waits for the present deadline, and if that has passed the replenishment cannot be posted. */
    method ExecutingRecharging() returns (ok: bool)
      requires Accounts() && status == Executing && dispatchEvt.None? && Budget() == 0
      modifies this`status, this`cap, this`d, this`absDline, this`bandExEvt, this`replEvt, this`account, vtime
      ensures ok <==> !HR || now <= old(d)
      ensures ok ==> Accounts() && d == old(d) + P && vtime.value == old(VirtualTime())
      ensures ok && !HR ==> status == Ready && cap == Q && replEvt == Some(now)
                            && account == old(account).(work := old(Work()), granted := old(account).granted + Q,
                                                       span := old(account).span + P, periods := old(account).periods + 1)
      ensures ok && HR ==> status == Recharging && cap == 0 && replEvt == Some(old(d))
                           && account == old(account).(work := old(Work()))
    {
      hide VirtualTimeIs;
      StopExecuting();
      if !HR {
        Recharge(account, Q, P, Full());
        account := account.(granted := account.granted + Q, span := account.span + P, periods := account.periods + 1);
        cap := Q;
        d := d + P;
        absDline := d;
        status := Ready;
        replEvt := Some(now);
      } else {
        cap := 0;
        if d < now {
          return false;
        }
        replEvt := Some(d);
        d := d + P;
        absDline := d;
        status := Recharging;
      }
      return true;
    }

    // ---------------------------------------------------------------- what drives the server

    method Dispatch()
      requires status == Executing
      modifies this`dispatchEvt
      ensures dispatchEvt == Some(now)
    {
      dispatchEvt := Some(now);
    }

    /** The new task in its place, and the transition that its arrival causes. */
    method Arrive(t: Task, h: nat)
      requires Valid() && h <= |queue|
      modifies this`queue, this`status, this`cap, this`d, this`absDline, this`account, this`idleEvt, this`dispatchEvt, vtime
      ensures Valid() && queue == old(queue)[..h] + [t] + old(queue)[h..]
      ensures status == if old(status) == Idle || old(status) == Releasing then Ready else old(status)
      ensures old(status) != Idle ==> cap == old(cap) && d == old(d) && account == old(account)
                                      && VirtualTime() == old(VirtualTime())
      ensures old(status) == Idle ==> account == Account(now, 0, cap, d - now, 1) && VirtualTime() == now as real
      ensures old(status) == Idle ==> (cap, d) == Renewed(policy, now, old(absDline), old(d), Q, P)
      ensures dispatchEvt == if old(status) == Executing then Some(now) else old(dispatchEvt)
    {
      hide WithinBandwidth, VirtualTimeIs, WorkBelow, Renewed;
      queue := queue[..h] + [t] + queue[h..];
      if status == Executing {
        Dispatch();
      } else if status == Idle {
        IdleReady();
      } else if status == Releasing {
        ReleasingReady();
      }
    }

    /** Work arrives, or is resumed, and takes the place h in the queue that the server's scheduler gives
        it. Only an idle server starts a new busy run; only a server that is
        releasing or idle has to be put back in the kernel's queue. */
    method OnArrival(t: Task, h: nat)
      requires Valid() && h <= |queue|
      modifies this`queue, this`status, this`cap, this`d, this`absDline, this`account, this`idleEvt, this`dispatchEvt, vtime
      ensures Valid() && queue == old(queue)[..h] + [t] + old(queue)[h..]
      ensures status == if old(status) == Idle || old(status) == Releasing then Ready else old(status)
      ensures old(status) != Idle ==> cap == old(cap) && d == old(d) && account == old(account)
                                      && VirtualTime() == old(VirtualTime())
      ensures old(status) == Idle ==> account == Account(now, 0, cap, d - now, 1) && VirtualTime() == now as real
      ensures old(status) == Idle ==>
                var left := old(absDline) - now;
                if policy == ReuseDeadline && left > 0 && left * Q >= P
                then d == old(d) && cap * P <= left * Q < (cap + 1) * P
                else cap == Q && d == now + P
      ensures dispatchEvt == if old(status) == Executing then Some(now) else old(dispatchEvt)
    {
      hide WithinBandwidth, VirtualTimeIs, WorkBelow, Renewed, BusyRun, EventsMatchStatus, TasksMatchStatus;
      RenewedIs(policy, now, absDline, d, Q, P);
      Arrive(t, h);
    }

    /** The kernel lets the server run. A replenishment due at the same instant comes first. */
    method OnSched()
      requires Valid() && status == Ready && replEvt.None?
      modifies this`status, this`lastTime, this`bandExEvt, this`dispatchEvt, vtime
      ensures Valid() && status == Executing && dispatchEvt == Some(now)
      ensures Budget() == old(Budget()) && VirtualTime() == old(VirtualTime())
    {
      hide WithinBandwidth, VirtualTimeIs;
      ReadyExecuting();
      Dispatch();
    }

    /** The kernel preempts the server. A dispatch due at the same instant comes first, so there is
        a task to deschedule. */
    method OnDesched()
      requires Valid() && dispatchEvt.None?
      modifies this`status, this`cap, this`bandExEvt, this`account, this`currExe, vtime
      ensures Valid()
      ensures status == if old(status) == Executing then Ready else old(status)
      ensures Budget() == old(Budget()) && Work() == old(Work()) && VirtualTime() == old(VirtualTime()) && d == old(d)
      ensures account.start == old(account).start
    {
      hide WithinBandwidth, VirtualTimeIs;
      if status == Executing {
        ExecutingReady();
        assert currExe.Some?;
        currExe := None;
      }
    }

    /** The executing task ends. */
    method OnEnd(t: Task)
      requires Valid() && status == Executing && currExe == Some(t)
      modifies this`queue, this`currExe, this`dispatchEvt
      ensures Valid() && currExe == None && dispatchEvt == Some(now)
      ensures exists h :: 0 <= h < |old(queue)| && old(queue)[h] == t && queue == old(queue)[..h] + old(queue)[h + 1..]
    {
      hide WithinBandwidth, VirtualTimeIs;
      var i := 0;
      while i < |queue| && queue[i] != t
        invariant 0 <= i <= |queue|
        invariant forall j :: 0 <= j < i ==> queue[j] != t
      {
        i := i + 1;
      }
      queue := queue[..i] + queue[i + 1..];
      currExe := None;
      Dispatch();
    }

    /** The server picks its next task; without one it releases the processor. */
    method OnDispatch()
      requires Valid() && dispatchEvt == Some(now)
      modifies this`dispatchEvt, this`currExe, this`status, this`cap, this`bandExEvt, this`idleEvt, this`account,
               this`idleSince, vtime
      ensures Valid() && dispatchEvt == None
      ensures queue != [] ==> status == Executing && currExe == Some(queue[0]) && Budget() == old(Budget())
      ensures queue == [] ==> status == if old(VirtualTime()) <= now as real then Idle else Releasing
      ensures status == Releasing ==> idleEvt == Some(old(VirtualTime()).Floor)
      ensures Work() == old(Work()) && d == old(d) && account.start == old(account).start
      ensures status == Idle ==> idleSince == now && WorkBelow(account, now, Q, P)
    {
      hide WithinBandwidth, VirtualTimeIs;
      dispatchEvt := None;
      var newExe := if queue == [] then None else Some(queue[0]);
      if newExe != currExe {
        currExe := newExe;
      }
      if currExe.None? {
        ExecutingReleasing();
      }
    }

    /** The budget has run out. A hard server whose deadline has passed cannot go on. */
    method OnBudgetExhausted() returns (ok: bool)
      requires Valid() && bandExEvt == Some(now)
      modifies this`dispatchEvt, this`currExe, this`status, this`cap, this`d, this`absDline, this`bandExEvt, this`replEvt,
               this`account, vtime
      ensures ok <==> !HR || now <= old(d)
      ensures ok ==> Valid() && d == old(d) + P && Work() == old(Work()) && account.start == old(account).start
      ensures ok ==> status == (if HR then Recharging else Ready) && cap == (if HR then 0 else Q)
      ensures ok ==> replEvt == Some(if HR then old(d) else now) && currExe == None
    {
      hide WithinBandwidth, VirtualTimeIs;
      dispatchEvt := None;
      currExe := None;
      ok := ExecutingRecharging();
    }

    /** The replenishment is due. After a soft server's immediate one there is nothing to do; a hard
        server gets a full budget and, if it has no work left, is idle: its virtual time is past. */
    method OnReplenishment()
      requires Valid() && replEvt == Some(now)
      modifies this`replEvt, this`cap, this`status, this`currExe, this`idleEvt, this`account, this`idleSince
      ensures Valid() && replEvt == None && d == old(d) && Work() == old(Work()) && account.start == old(account).start
      ensures old(status) == Ready ==> status == Ready && cap == old(cap)
      ensures old(status) == Recharging ==> cap == Q && status == if queue == [] then Idle else Ready
      ensures status == Idle ==> idleSince == now && WorkBelow(account, now, Q, P)
    {
      hide VirtualTimeIs, WithinBandwidth;
      replEvt := None;
      if status == Recharging || status == Releasing || status == Idle {
        PastVirtualTime(vtime.value, account, Q, P, Full());
        Recharge(account, Q, P, Full());
        cap := Q;
        account := account.(granted := account.granted + Q, span := account.span + P, periods := account.periods + 1);
        if queue != [] {
          status := Ready;
        } else if status != Idle {
          if (now as real) < vtime.GetValue(now) {
            // would go on releasing until the virtual time, but that is never ahead here
            assert false;
          } else {
            status := Idle;
            idleSince := now;
          }
          currExe := None;
        }
      }
    }

    /** The virtual time of a server without work has passed. */
    method OnIdle()
      requires Valid() && idleEvt == Some(now)
      modifies this`status, this`idleEvt, this`idleSince
      ensures Valid() && status == Idle && idleSince == now && WorkBelow(account, now, Q, P)
    {
      ReleasingIdle();
    }

    /** Time passes, never beyond a queued event. */
    method Advance(t: int)
      requires Valid() && now <= t
      requires forall e :: e in [bandExEvt, replEvt, idleEvt, dispatchEvt] && e.Some? ==> t <= e.value
      modifies this`now
      ensures Valid() && now == t
      ensures Work() == old(Work()) + (if status == Executing then t - old(now) else 0)
      ensures Budget() == old(Budget()) - (if status == Executing then t - old(now) else 0)
    {
      hide WithinBandwidth, VirtualTimeIs;
      assert forall e :: e in [bandExEvt, replEvt, idleEvt, dispatchEvt] ==> e.Some? ==> t <= e.value;
      assert bandExEvt in [bandExEvt, replEvt, idleEvt, dispatchEvt];
      now := t;
    }
  }

  // ------------------------------------------------------------------ what the invariant gives

  /** Budget, virtual time and deadline stay tied: the budget left never exceeds what the bandwidth
      allows from the virtual time to the deadline, and equals it under the original policy. */
  lemma BudgetTied(s: CBServer)
    requires s.Valid() && (s.status == Ready || s.status == Executing || s.status == Releasing)
    ensures 0 <= s.Budget()
    ensures (s.Budget() * s.P) as real <= (s.d as real - s.VirtualTime()) * s.Q as real
    ensures s.policy == Original ==> (s.Budget() * s.P) as real == (s.d as real - s.VirtualTime()) * s.Q as real
  {
    var a, v := s.account, s.VirtualTime();
    VirtualTimeNow(s);
    assert s.Budget() + s.Work() == a.granted;
    assert (s.Budget() + s.Work()) * s.P == s.Budget() * s.P + s.Work() * s.P;
    Spread(v - a.start as real, s.d as real - v, s.Q as real);
    assert (a.span * s.Q) as real == a.span as real * s.Q as real;
    if s.policy == Original {
      assert a.granted * s.P == a.span * s.Q;
    }
  }

  /** The virtual time always accounts for all the work of the busy run. */
  lemma VirtualTimeNow(s: CBServer)
    requires s.Valid() && s.status != Idle
    ensures VirtualTimeIs(s.VirtualTime(), s.account.start, s.Work(), s.Q, s.P)
    ensures (s.VirtualTime() - s.account.start as real) * s.Q as real == (s.Work() * s.P) as real
  {
    if s.status == Executing {
      VirtualTimeStep(s.vtime.value, s.account.start, s.account.work, s.now - s.lastTime, s.Q, s.P, s.vtime.der);
    }
  }

  /** A hard server that became ready from idle at r has by now executed at most
      Q * (floor((now - r) / P) + 1). */
  lemma HardNeverOverserves(s: CBServer)
    requires s.Valid() && s.status != Idle && s.HR && s.policy == Original
    ensures s.Work() <= s.Q * ((s.now - s.account.start) / s.P + 1)
  {
    assert s.Work() <= s.account.granted;
    GrantsByNow(s.account, s.Q, s.P, s.now);
  }

  lemma GrantsByNow(a: Account, Q: int, P: int, now: int)
    requires Q >= 1 && P >= 1 && WithinBandwidth(a, Q, P, true) && a.start + a.span - P <= now
    ensures a.granted <= Q * ((now - a.start) / P + 1)
  {
    assert (a.periods - 1) * P == a.periods * P - P;
    PeriodsElapsed(now - a.start, P, a.periods - 1);
    MulMono(a.periods, (now - a.start) / P + 1, Q);
  }

  lemma PeriodsElapsed(t: int, p: int, k: int)
    requires p >= 1 && k * p <= t
    ensures k <= t / p
  {
    if k > t / p {
      MulMono(t / p + 1, k, p);
    }
  }

  /** When a busy run that began at r has ended, idle since e, its work was less than
      (Q / P) * (e - r + 1); the 1 comes from the idle instant being cut to a whole tick. */
  lemma BusyRunWork(s: CBServer)
    requires s.Valid() && s.status == Idle
    ensures s.account.work * s.P < s.Q * (s.idleSince - s.account.start + 1)
  {}
}
