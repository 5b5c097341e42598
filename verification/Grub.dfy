/** Greedy reclamation of unused bandwidth: servers whose budgets run down at the summed utilisation
    of all active servers, and the supervisor that re-rates them together. */
module GreedyReclamation {
  import opened CapacityTimers
  import opened Common
  import opened ServerStatus

  /** A server's fields. `extra` and `served` are its history since the last recharge: the budget
      reclaimed from others, and the time executed. */
  datatype State = State(
    q: int, p: int, util: real,
    status: Status, d: int,
    cap: Clock, vtime: Clock,
    bandEx: Option<int>, idle: Option<int>, recharge: Option<int>,
    extra: int, served: int)
  {
    /** Clocks stopped and the exhaustion event withdrawn, if the server is executing. */
    function Paused(now: int): State {
      if status == Executing then
        this.(cap := cap.Stopped(now), vtime := vtime.Stopped(now), bandEx := None, served := Served(now))
      else this
    }

    function Served(now: int): int {
      if cap.running then served + (now - cap.lastTime) else served
    }

    /** A full budget and a new deadline, its virtual time at the present. */
    function Recharged(now: int): State {
      this.(status := Ready, d := now + p, recharge := None, extra := 0, served := 0,
            cap := cap.(value := q as real), vtime := vtime.(value := now as real))
    }

    function Retired(): State {
      this.(status := Idle, idle := None, recharge := None)
    }

    /** What the server counts for in the active utilisation. */
    function Active(): real {
      if status == Idle then 0.0 else util
    }
  }

  // ------------------------------------------------------------------ the accounts of one server

  /** The invariant law, between recharges, of a budget and a virtual time. */
  ghost predicate Balanced(cap: real, vtime: real, util: real, d: int, extra: int)
  {
    cap + util * vtime == util * d as real + extra as real
  }

  /** The accounts of a server that is not idle, given the values of its two clocks. */
  ghost predicate Books(s: State, cap: real, vtime: real, served: int)
  {
    && 0.0 <= cap && 0.0 <= vtime && 0 <= s.extra
    && Balanced(cap, vtime, s.util, s.d, s.extra)
    && (s.q + s.extra - served) as real <= cap
  }

  /** The clocks run, and the exhaustion event is queued, exactly while the server executes. The
      budget lasts until that event and not one tick longer. */
  ghost predicate Timed(s: State, now: int, activeU: real)
  {
    && (s.cap.running <==> s.status == Executing) && (s.vtime.running <==> s.status == Executing)
    && (s.bandEx.Some? <==> s.status == Executing)
    && (s.idle.Some? <==> s.status == Releasing)
    && (s.recharge.Some? <==> s.status == Recharging)
    && (s.idle.Some? ==> now <= s.idle.value)
    && (s.recharge.Some? ==> now <= s.recharge.value)
    && (s.status == Executing ==>
          && s.cap.lastTime == s.vtime.lastTime <= now <= s.bandEx.value
          && s.cap.der == -activeU && s.vtime.der * s.util == activeU
          && 0.0 <= s.cap.Value(s.bandEx.value) && s.cap.Value(s.bandEx.value + 1) < 0.0)
  }

  ghost predicate Reserved(q: int, p: int, util: real)
  {
    1 <= q && 1 <= p && 0.0 < util && util * p as real == q as real
  }

  ghost predicate Sound(s: State, now: int, activeU: real)
  {
    && Reserved(s.q, s.p, s.util)
    && Timed(s, now, activeU)
    && (s.status != Idle ==> Books(s, s.cap.value, s.vtime.value, s.served))
  }

  /** dt ticks of execution at any active utilisation: the budget falls by as much as the virtual
      time, times the utilisation, rises. */
  lemma ExecutionKeepsBalance(cap: real, vtime: real, util: real, d: int, extra: int, dt: real, activeU: real, der: real)
    requires Balanced(cap, vtime, util, d, extra) && der * util == activeU
    ensures Balanced(cap + dt * -activeU, vtime + dt * der, util, d, extra)
  {
    calc {
      util * (vtime + dt * der);
      util * vtime + dt * (der * util);
      util * vtime + dt * activeU;
    }
  }

  lemma ScaleMono(x: real, y: real, a: real)
    requires x <= y && 0.0 <= a
    ensures x * a <= y * a
  {}

  /** Until its exhaustion event a server's budget is not negative, and falls by at most the time executed. */
  lemma BudgetLasts(c: Clock, now: int, until: int)
    requires c.running && -1.0 <= c.der <= 0.0 && c.lastTime <= now <= until
    ensures c.Value(until) <= c.Value(now)
    ensures c.value - (now - c.lastTime) as real <= c.Value(now)
  {
    var a := -c.der;
    ScaleMono((now - c.lastTime) as real, (until - c.lastTime) as real, a);
    ScaleMono(a, 1.0, (now - c.lastTime) as real);
  }

  /** At every instant the books are in order, whatever the server is doing: the sum of its budget and
      of its utilisation times its virtual time is the one fixed at the last recharge plus what was
      reclaimed since, and the budget is not negative. */
  lemma BooksNow(s: State, now: int, activeU: real)
    requires Sound(s, now, activeU) && 0.0 <= activeU <= 1.0 && s.status != Idle
    ensures Books(s, s.cap.Value(now), s.vtime.Value(now), s.Served(now))
  {
    if s.status == Executing {
      var dt := (now - s.cap.lastTime) as real;
      ExecutionKeepsBalance(s.cap.value, s.vtime.value, s.util, s.d, s.extra, dt, activeU, s.vtime.der);
      BudgetLasts(s.cap, now, s.bandEx.value);
      assert 0.0 <= s.vtime.der by {
        if s.vtime.der < 0.0 {
          Negative(s.vtime.der, s.util);
        }
      }
      ScaleMono(0.0, dt, s.vtime.der);
    }
  }

  lemma BudgetNow(s: State, now: int, activeU: real)
    requires Sound(s, now, activeU) && 0.0 <= activeU <= 1.0 && s.status != Idle
    ensures 0.0 <= s.cap.Value(now)
    ensures s.cap.Value(now) + s.util * s.vtime.Value(now) == s.util * s.d as real + s.extra as real
  {
    hide Sound, Clock.Value;
    BooksNow(s, now, activeU);
  }

  lemma Negative(x: real, y: real)
    requires x < 0.0 && 0.0 < y
    ensures x * y < 0.0
  {}

  /** A server whose exhaustion event fires has, since its last recharge, executed at least its whole
      budget and all it reclaimed: reclaiming never takes from the reservation. */
  lemma ExhaustedAfterFullBudget(s: State, now: int, activeU: real)
    requires Sound(s, now, activeU) && 0.0 <= activeU <= 1.0 && s.bandEx == Some(now)
    ensures s.q + s.extra <= s.Served(now)
  {
    BooksNow(s, now, activeU);
    assert s.cap.Value(now + 1) < 0.0;
    assert s.cap.Value(now + 1) == s.cap.Value(now) - activeU by {
      Moved(s.cap, now, 1);
    }
  }

  // ------------------------------------------------------------------ the servers together

  function ActiveSum(ss: seq<State>): real {
    if ss == [] then 0.0 else ss[0].Active() + ActiveSum(ss[1..])
  }

  function TotalSum(ss: seq<State>): real {
    if ss == [] then 0.0 else ss[0].util + TotalSum(ss[1..])
  }

  /** Servers that only differ in what does not count leave the sum alone. */
  lemma {:induction false} SameActive(ss: seq<State>, tt: seq<State>)
    requires |ss| == |tt| && forall i :: 0 <= i < |ss| ==> ss[i].Active() == tt[i].Active()
    ensures ActiveSum(ss) == ActiveSum(tt)
  {
    if ss != [] {
      SameActive(ss[1..], tt[1..]);
    }
  }

  /** One server changing its mind changes the sum by its own share. */
  lemma {:induction false} OneActive(ss: seq<State>, tt: seq<State>, k: nat)
    requires |ss| == |tt| && k < |ss| && forall i :: 0 <= i < |ss| && i != k ==> ss[i].Active() == tt[i].Active()
    ensures ActiveSum(tt) - ActiveSum(ss) == tt[k].Active() - ss[k].Active()
  {
    if k == 0 {
      SameActive(ss[1..], tt[1..]);
    } else {
      OneActive(ss[1..], tt[1..], k - 1);
    }
  }

  lemma {:induction false} SameTotal(ss: seq<State>, tt: seq<State>)
    requires |ss| == |tt| && forall i :: 0 <= i < |ss| ==> ss[i].util == tt[i].util
    ensures TotalSum(ss) == TotalSum(tt)
  {
    if ss != [] {
      SameTotal(ss[1..], tt[1..]);
    }
  }

  lemma {:induction false} SumsAppend(ss: seq<State>, s: State)
    ensures ActiveSum(ss + [s]) == ActiveSum(ss) + s.Active()
    ensures TotalSum(ss + [s]) == TotalSum(ss) + s.util
  {
    if ss == [] {
      assert ss + [s] == [s];
    } else {
      assert (ss + [s])[1..] == ss[1..] + [s];
      SumsAppend(ss[1..], s);
    }
  }

  /** Each active server counts for its share; all together for no more than the total. */
  lemma {:induction false} ActiveWithinTotal(ss: seq<State>)
    requires forall i :: 0 <= i < |ss| ==> 0.0 < ss[i].util
    ensures forall i :: 0 <= i < |ss| ==> ss[i].Active() <= ActiveSum(ss)
    ensures 0.0 <= ActiveSum(ss) <= TotalSum(ss)
  {
    if ss != [] {
      ActiveWithinTotal(ss[1..]);
      forall i | 0 <= i < |ss|
        ensures ss[i].Active() <= ActiveSum(ss)
      {
        if i > 0 {
          assert ss[i] == ss[1..][i - 1];
        }
      }
    }
  }

  // ------------------------------------------------------------------ pausing and resuming

  /** As Sound, with the clocks stopped whatever the status: between pausing and resuming. */
  ghost predicate Stopped(s: State, now: int)
  {
    && Reserved(s.q, s.p, s.util)
    && !s.cap.running && !s.vtime.running && s.bandEx.None?
    && (s.idle.Some? <==> s.status == Releasing)
    && (s.recharge.Some? <==> s.status == Recharging)
    && (s.idle.Some? ==> now <= s.idle.value)
    && (s.recharge.Some? ==> now <= s.recharge.value)
    && (s.status != Idle ==> Books(s, s.cap.value, s.vtime.value, s.served))
  }

  /** Nothing has happened to the server but a change of speed. */
  ghost predicate SameAccounts(s: State, t: State, now: int)
  {
    && t.q == s.q && t.p == s.p && t.util == s.util && t.status == s.status && t.d == s.d
    && t.idle == s.idle && t.recharge == s.recharge && t.extra == s.extra
    && t.Served(now) == s.Served(now)
    && t.cap.Value(now) == s.cap.Value(now) && t.vtime.Value(now) == s.vtime.Value(now)
  }

  lemma PausedIsStopped(s: State, now: int, activeU: real)
    requires Sound(s, now, activeU) && 0.0 <= activeU <= 1.0
    ensures Stopped(s.Paused(now), now)
    ensures SameAccounts(s, s.Paused(now), now) && s.Paused(now).status == s.status
  {
    if s.status != Idle {
      BooksNow(s, now, activeU);
    }
  }

  /** A server at rest is sound at any active utilisation. */
  lemma StoppedIsSound(s: State, now: int, activeU: real)
    requires Stopped(s, now) && s.status != Executing
    ensures Sound(s, now, activeU)
  {}

  ghost predicate NothingDueBefore(s: State, t: int)
  {
    && (s.bandEx.Some? ==> t <= s.bandEx.value)
    && (s.idle.Some? ==> t <= s.idle.value)
    && (s.recharge.Some? ==> t <= s.recharge.value)
  }

  lemma TimePasses(s: State, now: int, t: int, activeU: real)
    requires Sound(s, now, activeU) && now <= t && NothingDueBefore(s, t)
    ensures Sound(s, t, activeU)
  {}

  lemma SameTwice(s: State, t: State, u: State, now: int)
    requires SameAccounts(s, t, now) && SameAccounts(t, u, now)
    ensures SameAccounts(s, u, now)
  {}

  lemma SameShares(ss: seq<State>, tt: seq<State>, now: int)
    requires |ss| == |tt| && forall i :: 0 <= i < |ss| ==> SameAccounts(ss[i], tt[i], now)
    ensures ActiveSum(ss) == ActiveSum(tt) && TotalSum(ss) == TotalSum(tt)
  {
    SameActive(ss, tt);
    SameTotal(ss, tt);
  }

  /** The clocks run at least while the server executes. */
  ghost predicate Clocked(s: State)
  {
    s.status == Executing ==> s.cap.running && s.vtime.running
  }

  lemma Positive(ss: seq<State>, now: int, activeU: real)
    requires forall i :: 0 <= i < |ss| ==> Sound(ss[i], now, activeU)
    ensures forall i :: 0 <= i < |ss| ==> 0.0 < ss[i].util && Clocked(ss[i])
  {}

  /** A recharge starts from a balance of its own. */
  lemma RechargedIsSound(s: State, now: int, activeU: real)
    requires Sound(s, now, activeU) && 0 <= now && (s.status == Idle || s.status == Recharging)
    ensures Sound(s.Recharged(now), now, activeU) && !s.cap.running && !s.vtime.running
    ensures s.status == Idle ==> s.recharge.None?
  {}

  lemma RetiredIsSound(s: State, now: int, activeU: real)
    requires Sound(s, now, activeU) && (s.status == Releasing || s.status == Recharging)
    ensures Sound(s.Retired(), now, activeU) && 0.0 < s.util && s.vtime.Value(now) == s.vtime.value
  {}

  lemma MoreBalance(cap: real, vtime: real, util: real, d: int, extra: int, more: int)
    requires Balanced(cap, vtime, util, d, extra)
    ensures Balanced(cap + more as real, vtime, util, d, extra + more)
  {}

  /** The whole ticks of budget that a server leaves unused by being idle later than its virtual time. */
  function Unused(util: real, late: real): int {
    (util * late).Floor
  }

  /** Never more than the bandwidth of the server over that time, nor less by a whole tick. */
  lemma UnusedIsBandwidth(util: real, late: real)
    requires 0.0 < util && 0.0 < late
    ensures 0 <= Unused(util, late)
    ensures Unused(util, late) as real <= util * late < (Unused(util, late) + 1) as real
  {}

  /** What is left for others, which was `before`, once a server has gone idle so long after its
      virtual time: its bandwidth over that time, in whole ticks. */
  ghost predicate GivesAway(after: int, before: int, util: real, late: real)
  {
    if late > 0.0 then after as real <= util * late < (after + 1) as real else after == before
  }

  lemma UnusedIsGivenAway(util: real, late: real, before: int)
    requires 0.0 < util
    ensures late > 0.0 ==> 0 <= Unused(util, late) && GivesAway(Unused(util, late), before, util, late)
    ensures late <= 0.0 ==> GivesAway(before, before, util, late)
  {}

  method Ratio(a: real, b: real) returns (r: real)
    requires b > 0.0
    ensures r * b == a
  {
    r := a / b;
  }

  class Grub {
    const Q: int
    const P: int
    const util: real

    var status: Status
    var d: int
    var cap: Clock
    var vtime: Clock
    var bandExEvt: Option<int>
    var idleEvt: Option<int>
    var rechargingEvt: Option<int>

    ghost var extra: int
    ghost var served: int

    ghost function View(): State
      reads this
    {
      State(Q, P, util, status, d, cap, vtime, bandExEvt, idleEvt, rechargingEvt, extra, served)
    }

    constructor (q: int, p: int)
      requires 1 <= q && 1 <= p
      ensures Q == q && P == p && status == Idle && Stopped(View(), 0)
    {
      Q, P := q, p;
      util := q as real / p as real;
      status, d := Idle, 0;
      cap, vtime := Clock(0, 0.0, false, 1.0), Clock(0, 0.0, false, 1.0);
      bandExEvt, idleEvt, rechargingEvt := None, None, None;
      extra, served := 0, 0;
      new;
      assert 0.0 < util && util * p as real == q as real by {
        Utilisation(q, p);
      }
    }

    method UpdateBudget(now: int)
      requires status == Executing ==> cap.running && vtime.running
      modifies this
      ensures View() == old(View()).Paused(now)
    {
      if status == Executing {
        served := served + (now - cap.lastTime);
        vtime := vtime.Stopped(now);
        cap := cap.Stopped(now);
        bandExEvt := None;
      }
    }

    /** The intercept is never negative, so the exhaustion event is never posted in the past. */
    method StartAccounting(now: int, activeU: real)
      requires Stopped(View(), now) && (status == Executing ==> 0.0 < activeU)
      modifies this
      ensures Sound(View(), now, activeU) && SameAccounts(old(View()), View(), now)
      ensures status == Executing ==> cap.der == -activeU && vtime.der * util == activeU
    {
      if status == Executing {
        var speed := Ratio(activeU, util);
        vtime := vtime.Started(now, speed);
        cap := cap.Started(now, -activeU);
        var delta := cap.Intercept(0, now);
        InterceptIsExact(cap, now, 0, delta);
        assert bandExEvt.None? && now <= now + delta;
        bandExEvt := Some(now + delta);
      } else {
        StoppedIsSound(View(), now, activeU);
      }
    }

    ghost predicate Registered(sup: GrubSupervisor)
      reads sup, sup.servers
    {
      sup.Valid() && this in sup.servers
    }

    /** The accounts of all the other servers of the supervisor are as they were. */
    twostate predicate OthersSame(sup: GrubSupervisor)
      reads sup, sup.servers
    {
      && sup.servers == old(sup.servers) && sup.now == old(sup.now)
      && forall i :: 0 <= i < |sup.servers| && sup.servers[i] != this ==>
                 SameAccounts(old(sup.servers[i].View()), sup.servers[i].View(), sup.now)
    }

    /** Budget, virtual time and history at the present instant. */
    ghost function Now(now: int): (real, real, int, int)
      reads this
    {
      (cap.Value(now), vtime.Value(now), extra, View().Served(now))
    }

    // -------------------------------------------------------------- transitions

    /** A fresh start: full budget, new deadline, virtual time at the present. */
    method Wake(sup: GrubSupervisor)
      requires Registered(sup) && status == Idle
      modifies this
      ensures sup.Accounts(sup.activeU + util) && this in sup.servers
      ensures View() == old(View()).Recharged(sup.now) && !cap.running && !vtime.running
    {
      hide Sound;
      ghost var before, k := Views(sup.servers), sup.IndexOf(this);
      RechargedIsSound(before[k], sup.now, sup.activeU);
      status := Ready;
      assert !cap.running && !vtime.running;
      cap := cap.(value := Q as real);
      d := sup.now + P;
      vtime := vtime.(value := sup.now as real);
      extra, served := 0, 0;
      OneChanged(sup, this, before, k);
    }

    method IdleReady(sup: GrubSupervisor)
      requires Registered(sup) && status == Idle
      modifies this, sup`activeU, sup.servers
      ensures Registered(sup) && OthersSame(sup)
      ensures status == Ready && d == sup.now + P && Now(sup.now) == (Q as real, sup.now as real, 0, 0)
      ensures sup.activeU == old(sup.activeU) + util
    {
      hide Sound, GrubSupervisor.Accounts;
      Wake(sup);
      ghost var before, k := Views(sup.servers), sup.IndexOf(this);
      assert forall i :: 0 <= i < |sup.servers| && sup.servers[i] != this ==> before[i] == old(sup.servers[i].View());
      sup.SetActive(this);
      assert forall i :: 0 <= i < |sup.servers| ==> SameAccounts(before[i], sup.servers[i].View(), sup.now);
      assert SameAccounts(before[k], View(), sup.now);
    }

    method ReleasingReady(sup: GrubSupervisor)
      requires Registered(sup) && status == Releasing
      modifies this
      ensures Registered(sup) && OthersSame(sup) && sup.activeU == old(sup.activeU)
      ensures status == Ready && Now(sup.now) == old(Now(sup.now)) && d == old(d)
    {
      ghost var before, k := Views(sup.servers), sup.IndexOf(this);
      assert Sound(View(), sup.now, sup.activeU);
      status := Ready;
      idleEvt := None;
      OneChanged(sup, this, before, k);
    }

    /** Dispatched: the server takes over the capacity left by others. */
    method ReadyExecuting(sup: GrubSupervisor)
      requires Registered(sup) && status == Ready
      modifies this, sup`residualCapacity
      ensures Registered(sup) && OthersSame(sup) && sup.activeU == old(sup.activeU)
      ensures status == Executing && d == old(d) && sup.residualCapacity == 0
      ensures View().Served(sup.now) == old(View().Served(sup.now))
      ensures cap.Value(sup.now) == old(cap.Value(sup.now)) + old(sup.residualCapacity) as real
      ensures vtime.Value(sup.now) == old(vtime.Value(sup.now)) && extra == old(extra) + old(sup.residualCapacity)
    {
      hide Balanced;
      ghost var before, k := Views(sup.servers), sup.IndexOf(this);
      assert Sound(View(), sup.now, sup.activeU);
      ShareIsPositive(sup, this);
      status := Executing;
      var more := sup.GetCapacity();
      MoreBalance(cap.value, vtime.value, util, d, extra, more);
      cap := cap.(value := cap.value + more as real);
      extra := extra + more;
      StartAccounting(sup.now, sup.activeU);
      OneChanged(sup, this, before, k);
    }

    /** Preempted. */
    method ExecutingReady(sup: GrubSupervisor)
      requires Registered(sup) && status == Executing
      modifies this
      ensures Registered(sup) && OthersSame(sup) && sup.activeU == old(sup.activeU)
      ensures status == Ready && Now(sup.now) == old(Now(sup.now)) && d == old(d)
    {
      hide Balanced;
      ghost var before, k := Views(sup.servers), sup.IndexOf(this);
      PausedIsStopped(View(), sup.now, sup.activeU);
      UpdateBudget(sup.now);
      status := Ready;
      OneChanged(sup, this, before, k);
    }

    /** Out of work: idle once the virtual time has passed. */
    method ExecutingReleasing(sup: GrubSupervisor)
      requires Registered(sup) && status == Executing
      modifies this
      ensures Registered(sup) && OthersSame(sup) && sup.activeU == old(sup.activeU)
      ensures status == Releasing && Now(sup.now) == old(Now(sup.now)) && d == old(d)
      ensures idleEvt == Some(if sup.now < vtime.value.Floor then vtime.value.Floor else sup.now)
    {
      hide Balanced;
      ghost var before, k := Views(sup.servers), sup.IndexOf(this);
      PausedIsStopped(View(), sup.now, sup.activeU);
      UpdateBudget(sup.now);
      status := Releasing;
      assert idleEvt.None?;
      if sup.now < vtime.Value(sup.now).Floor {
        idleEvt := Some(vtime.Value(sup.now).Floor);
      } else {
        idleEvt := Some(sup.now);
      }
      OneChanged(sup, this, before, k);
    }

    /** The bandwidth that the server left unused since its virtual time is given away. */
    method Retire(sup: GrubSupervisor)
      requires Registered(sup) && (status == Releasing || status == Recharging)
      modifies this, sup`residualCapacity
      ensures sup.Accounts(sup.activeU - util) && this in sup.servers && status == Idle && 0.0 < util
      ensures GivesAway(sup.residualCapacity, old(sup.residualCapacity), util, sup.now as real - old(vtime.value))
    {
      hide Sound, Unused, GivesAway, Clock.Value;
      ghost var before, k := Views(sup.servers), sup.IndexOf(this);
      RetiredIsSound(before[k], sup.now, sup.activeU);
      UnusedIsGivenAway(util, sup.now as real - vtime.value, sup.residualCapacity);
      if sup.now as real > vtime.Value(sup.now) {
        sup.SetCapacity(Unused(util, sup.now as real - vtime.Value(sup.now)));
      }
      idleEvt, rechargingEvt := None, None;
      status := Idle;
      OneChanged(sup, this, before, k);
    }

    /** The server no longer counts as active, and all the others are re-rated. */
    method GoIdle(sup: GrubSupervisor)
      requires Registered(sup) && (status == Releasing || status == Recharging)
      modifies this, sup`activeU, sup`residualCapacity, sup.servers
      ensures Registered(sup) && OthersSame(sup)
      ensures status == Idle && sup.activeU == old(sup.activeU) - util
      ensures GivesAway(sup.residualCapacity, old(sup.residualCapacity), util, sup.now as real - old(vtime.value))
    {
      hide Sound, GivesAway, GrubSupervisor.Accounts;
      Retire(sup);
      ghost var before, k := Views(sup.servers), sup.IndexOf(this);
      assert forall i :: 0 <= i < |sup.servers| && sup.servers[i] != this ==> before[i] == old(sup.servers[i].View());
      sup.SetIdle(this);
      assert forall i :: 0 <= i < |sup.servers| ==> SameAccounts(before[i], sup.servers[i].View(), sup.now);
      assert SameAccounts(before[k], View(), sup.now);
    }

    /** Idle: what the server left unused since its virtual time is given away. */
    method ReleasingIdle(sup: GrubSupervisor)
      requires Registered(sup) && (status == Releasing || status == Recharging)
      modifies this, sup`activeU, sup`residualCapacity, sup.servers
      ensures Registered(sup) && OthersSame(sup)
      ensures status == Idle && sup.activeU == old(sup.activeU) - util
      ensures var late := sup.now as real - old(vtime.value);
              if late > 0.0
              then sup.residualCapacity as real <= util * late < (sup.residualCapacity + 1) as real
              else sup.residualCapacity == old(sup.residualCapacity)
    {
      hide Sound, SameAccounts, GrubSupervisor.Accounts;
      GoIdle(sup);
    }

    /** Out of budget: recharged at the deadline, or at once if that has passed. */
    method ExecutingRecharging(sup: GrubSupervisor)
      requires Registered(sup) && status == Executing
      modifies this
      ensures Registered(sup) && OthersSame(sup) && sup.activeU == old(sup.activeU)
      ensures status == Recharging && Now(sup.now) == old(Now(sup.now)) && d == old(d)
      ensures rechargingEvt == Some(if d < sup.now then sup.now else d)
    {
      hide Balanced;
      ghost var before, k := Views(sup.servers), sup.IndexOf(this);
      PausedIsStopped(View(), sup.now, sup.activeU);
      UpdateBudget(sup.now);
      status := Recharging;
      assert rechargingEvt.None?;
      rechargingEvt := Some(if d < sup.now then sup.now else d);
      OneChanged(sup, this, before, k);
    }

    method RechargingReady(sup: GrubSupervisor)
      requires Registered(sup) && status == Recharging
      modifies this
      ensures Registered(sup) && OthersSame(sup) && sup.activeU == old(sup.activeU)
      ensures status == Ready && d == sup.now + P && Now(sup.now) == (Q as real, sup.now as real, 0, 0)
    {
      hide Sound;
      ghost var before, k := Views(sup.servers), sup.IndexOf(this);
      RechargedIsSound(before[k], sup.now, sup.activeU);
      rechargingEvt := None;
      cap := cap.(value := Q as real);
      d := sup.now + P;
      vtime := vtime.(value := sup.now as real);
      extra, served := 0, 0;
      status := Ready;
      OneChanged(sup, this, before, k);
    }

    // -------------------------------------------------------------- what drives the server

    method OnArrival(sup: GrubSupervisor)
      requires Registered(sup)
      modifies this, sup`activeU, sup.servers
      ensures Registered(sup) && OthersSame(sup)
      ensures status == if old(status) == Idle || old(status) == Releasing then Ready else old(status)
      ensures old(status) != Idle ==> Now(sup.now) == old(Now(sup.now)) && d == old(d) && sup.activeU == old(sup.activeU)
      ensures old(status) == Idle ==> d == sup.now + P && Now(sup.now) == (Q as real, sup.now as real, 0, 0)
    {
      if status == Idle {
        IdleReady(sup);
      } else if status == Releasing {
        ReleasingReady(sup);
      }
    }

    /** The budget is exhausted, but not before the server has executed for all of it and for all it
        had reclaimed. */
    method OnBudgetExhausted(sup: GrubSupervisor)
      requires Registered(sup) && bandExEvt == Some(sup.now)
      modifies this
      ensures Registered(sup) && OthersSame(sup) && sup.activeU == old(sup.activeU)
      ensures status == Recharging && Q + extra <= served && extra == old(extra) && served == old(View().Served(sup.now))
    {
      assert Sound(View(), sup.now, sup.activeU);
      ExhaustedAfterFullBudget(View(), sup.now, sup.activeU);
      ExecutingRecharging(sup);
    }

    method OnRecharging(sup: GrubSupervisor, work: bool)
      requires Registered(sup) && rechargingEvt == Some(sup.now)
      modifies this, sup`activeU, sup`residualCapacity, sup.servers
      ensures Registered(sup) && OthersSame(sup)
      ensures status == if work then Ready else Idle
      ensures work ==> d == sup.now + P && Now(sup.now) == (Q as real, sup.now as real, 0, 0)
                       && sup.activeU == old(sup.activeU) && sup.residualCapacity == old(sup.residualCapacity)
      ensures !work ==> sup.activeU == old(sup.activeU) - util
      ensures !work ==>
                var late := sup.now as real - old(vtime.value);
                if late > 0.0
                then sup.residualCapacity as real <= util * late < (sup.residualCapacity + 1) as real
                else sup.residualCapacity == old(sup.residualCapacity)
    {
      hide Sound, SameAccounts, GrubSupervisor.Accounts, Clock.Value, State.Served;
      EventsTellStatus(sup, this);
      if work {
        RechargingReady(sup);
      } else {
        ReleasingIdle(sup);
      }
    }

    method OnIdle(sup: GrubSupervisor)
      requires Registered(sup) && idleEvt == Some(sup.now)
      modifies this, sup`activeU, sup`residualCapacity, sup.servers
      ensures Registered(sup) && OthersSame(sup)
      ensures status == Idle && sup.activeU == old(sup.activeU) - util
      ensures var late := sup.now as real - old(vtime.value);
              if late > 0.0
              then sup.residualCapacity as real <= util * late < (sup.residualCapacity + 1) as real
              else sup.residualCapacity == old(sup.residualCapacity)
    {
      ReleasingIdle(sup);
    }
  }

  lemma Utilisation(q: int, p: int)
    requires 1 <= q && 1 <= p
    ensures 0.0 < q as real / p as real && q as real / p as real * p as real == q as real
  {}

  // ------------------------------------------------------------------ the supervisor

  ghost function Views(ss: seq<Grub>): (vs: seq<State>)
    reads ss
    ensures |vs| == |ss| && forall i :: 0 <= i < |ss| ==> vs[i] == ss[i].View()
  {
    if ss == [] then [] else [ss[0].View()] + Views(ss[1..])
  }

  class GrubSupervisor {
    var servers: seq<Grub>
    var totalU: real
    var residualCapacity: int
    var activeU: real
    var now: int

    /** All accounts are in order, except that the active servers add up to `active`. */
    ghost predicate Accounts(active: real)
      reads this, servers
    {
      && 0 <= now && 0 <= residualCapacity
      && (forall i, j :: 0 <= i < j < |servers| ==> servers[i] != servers[j])
      && (forall i :: 0 <= i < |servers| ==> Sound(servers[i].View(), now, activeU))
      && ActiveSum(Views(servers)) == active
      && TotalSum(Views(servers)) == totalU <= 1.0
      && 0.0 <= activeU <= 1.0
    }

    ghost predicate Valid()
      reads this, servers
    {
      Accounts(activeU)
    }

    constructor ()
      ensures Valid() && servers == [] && residualCapacity == 0 && activeU == 0.0
    {
      servers, totalU, residualCapacity, activeU, now := [], 0.0, 0, 0.0, 0;
    }

    /** Registers a server, unless the servers together would exceed the processor. */
    method AddGrub(g: Grub) returns (ok: bool)
      requires Valid() && g !in servers && g.status == Idle && Stopped(g.View(), now)
      modifies this
      ensures Valid() && activeU == old(activeU) && now == old(now) && residualCapacity == old(residualCapacity)
      ensures ok <==> old(totalU) + g.util <= 1.0
      ensures servers == if ok then old(servers) + [g] else old(servers)
    {
      if totalU + g.util > 1.0 {
        return false;
      }
      SumsAppend(Views(servers), g.View());
      StoppedIsSound(g.View(), now, activeU);
      assert Views(servers + [g]) == Views(servers) + [g.View()];
      servers := servers + [g];
      totalU := totalU + g.util;
      return true;
    }

    ghost function IndexOf(g: Grub): (k: nat)
      requires g in servers
      reads this
      ensures k < |servers| && servers[k] == g
    {
      var k :| 0 <= k < |servers| && servers[k] == g;
      k
    }

    method PauseAll()
      requires forall i, j :: 0 <= i < j < |servers| ==> servers[i] != servers[j]
      requires forall i :: 0 <= i < |servers| ==> Clocked(servers[i].View())
      modifies servers
      ensures forall i :: 0 <= i < |servers| ==> servers[i].View() == old(servers[i].View()).Paused(now)
    {
      var k := 0;
      while k < |servers|
        invariant 0 <= k <= |servers|
        invariant forall i :: 0 <= i < k ==> servers[i].View() == old(servers[i].View()).Paused(now)
        invariant forall i :: k <= i < |servers| ==> servers[i].View() == old(servers[i].View())
      {
        servers[k].UpdateBudget(now);
        k := k + 1;
      }
    }

    method ResumeAll()
      requires forall i, j :: 0 <= i < j < |servers| ==> servers[i] != servers[j]
      requires forall i :: 0 <= i < |servers| ==> Stopped(servers[i].View(), now)
      requires forall i :: 0 <= i < |servers| && servers[i].status == Executing ==> 0.0 < activeU
      modifies servers
      ensures forall i :: 0 <= i < |servers| ==> Sound(servers[i].View(), now, activeU)
      ensures forall i :: 0 <= i < |servers| ==> SameAccounts(old(servers[i].View()), servers[i].View(), now)
    {
      hide Stopped, Sound, SameAccounts;
      var k := 0;
      while k < |servers|
        invariant 0 <= k <= |servers|
        invariant forall i :: 0 <= i < k ==> Sound(servers[i].View(), now, activeU)
        invariant forall i :: 0 <= i < k ==> SameAccounts(old(servers[i].View()), servers[i].View(), now)
        invariant forall i :: k <= i < |servers| ==> servers[i].View() == old(servers[i].View())
      {
        assert servers[k].View().status == Executing ==> 0.0 < activeU;
        servers[k].StartAccounting(now, activeU);
        k := k + 1;
      }
    }

    /** Changes the active utilisation; every executing server goes on at the new speed. */
    method Rerate(u: real)
      requires Accounts(u)
      modifies this`activeU, servers
      ensures Valid() && activeU == u
      ensures forall i :: 0 <= i < |servers| ==> SameAccounts(old(servers[i].View()), servers[i].View(), now)
    {
      hide Sound, Stopped, SameAccounts, Clocked, Clock.Value, State.Paused, ActiveSum, TotalSum;
      ghost var before := Views(servers);
      Positive(before, now, activeU);
      ActiveWithinTotal(before);
      PauseAll();
      forall i | 0 <= i < |servers|
        ensures Stopped(servers[i].View(), now) && SameAccounts(before[i], servers[i].View(), now)
        ensures servers[i].status == before[i].status
      {
        PausedIsStopped(before[i], now, activeU);
      }
      activeU := u;
      forall i | 0 <= i < |servers| && servers[i].status == Executing
        ensures 0.0 < activeU
      {
        assert before[i].Active() == before[i].util;
      }
      label paused:
      ResumeAll();
      forall i | 0 <= i < |servers|
        ensures SameAccounts(before[i], servers[i].View(), now)
      {
        SameTwice(before[i], old@paused(servers[i].View()), servers[i].View(), now);
      }
      SameShares(before, Views(servers), now);
    }

    method SetActive(g: Grub)
      requires Accounts(activeU + g.util)
      modifies this`activeU, servers
      ensures Valid() && activeU == old(activeU) + g.util
      ensures forall i :: 0 <= i < |servers| ==> SameAccounts(old(servers[i].View()), servers[i].View(), now)
    {
      Rerate(activeU + g.util);
    }

    method SetIdle(g: Grub)
      requires Accounts(activeU - g.util)
      modifies this`activeU, servers
      ensures Valid() && activeU == old(activeU) - g.util
      ensures forall i :: 0 <= i < |servers| ==> SameAccounts(old(servers[i].View()), servers[i].View(), now)
    {
      Rerate(activeU - g.util);
    }

    method SetCapacity(c: int)
      modifies this`residualCapacity
      ensures residualCapacity == c
    {
      residualCapacity := c;
    }

    method GetCapacity() returns (c: int)
      modifies this`residualCapacity
      ensures c == old(residualCapacity) && residualCapacity == 0
    {
      c := residualCapacity;
      residualCapacity := 0;
    }

    /** Time passes, never beyond a queued event. */
    method Advance(t: int)
      requires Valid() && now <= t
      requires forall i :: 0 <= i < |servers| ==> NothingDueBefore(servers[i].View(), t)
      modifies this`now
      ensures Valid() && now == t
    {
      hide Sound;
      forall i | 0 <= i < |servers|
        ensures Sound(servers[i].View(), t, activeU)
      {
        TimePasses(servers[i].View(), now, t, activeU);
      }
      now := t;
    }
  }

  /** When one server alone has changed, the active servers add up to what its change makes of it. */
  lemma OneChanged(sup: GrubSupervisor, g: Grub, before: seq<State>, k: nat)
    requires |before| == |sup.servers| && k < |sup.servers| && sup.servers[k] == g
    requires 0 <= sup.now && 0 <= sup.residualCapacity && 0.0 <= sup.activeU <= 1.0
    requires forall i, j :: 0 <= i < j < |sup.servers| ==> sup.servers[i] != sup.servers[j]
    requires forall i :: 0 <= i < |before| ==> Sound(before[i], sup.now, sup.activeU)
    requires ActiveSum(before) == sup.activeU && TotalSum(before) == sup.totalU <= 1.0
    requires forall i :: 0 <= i < |before| && i != k ==> sup.servers[i].View() == before[i]
    requires Sound(g.View(), sup.now, sup.activeU) && g.View().util == before[k].util
    ensures sup.Accounts(sup.activeU + g.View().Active() - before[k].Active())
  {
    hide Sound;
    OneActive(before, Views(sup.servers), k);
    SameTotal(before, Views(sup.servers));
  }

  lemma EventsTellStatus(sup: GrubSupervisor, g: Grub)
    requires sup.Valid() && g in sup.servers
    ensures g.rechargingEvt.Some? <==> g.status == Recharging
    ensures g.idleEvt.Some? <==> g.status == Releasing
    ensures g.bandExEvt.Some? <==> g.status == Executing
  {
    assert Sound(g.View(), sup.now, sup.activeU);
  }

  /** A server that is not idle has a share in an active utilisation that is then positive. */
  lemma ShareIsPositive(sup: GrubSupervisor, g: Grub)
    requires sup.Valid() && g in sup.servers && g.status != Idle
    ensures 0.0 < g.util <= sup.activeU <= sup.totalU <= 1.0
  {
    Positive(Views(sup.servers), sup.now, sup.activeU);
    ActiveWithinTotal(Views(sup.servers));
    var k :| 0 <= k < |sup.servers| && sup.servers[k] == g;
    assert Views(sup.servers)[k].Active() == g.util;
  }

  /** While a server executes its budget runs down at the active utilisation, and its virtual time
      advances at the active utilisation divided by its own. */
  lemma ExecutionRates(sup: GrubSupervisor, g: Grub, dt: int)
    requires sup.Valid() && g in sup.servers && g.status == Executing
    ensures g.cap.Value(sup.now + dt) == g.cap.Value(sup.now) - dt as real * sup.activeU
    ensures g.util * (g.vtime.Value(sup.now + dt) - g.vtime.Value(sup.now)) == dt as real * sup.activeU
  {
    hide Sound, ActiveSum, TotalSum, Clock.Value;
    RatesOf(g.View(), sup.now, sup.activeU, dt);
  }

  lemma RatesOf(s: State, now: int, activeU: real, dt: int)
    requires Sound(s, now, activeU) && s.status == Executing
    ensures s.cap.Value(now + dt) == s.cap.Value(now) - dt as real * activeU
    ensures s.util * (s.vtime.Value(now + dt) - s.vtime.Value(now)) == dt as real * activeU
  {
    hide Books, Clock.Value;
    Moved(s.cap, now, dt);
    Moved(s.vtime, now, dt);
    Speed(s.util, dt as real, s.vtime.der);
  }

  lemma Speed(util: real, dt: real, der: real)
    ensures util * (dt * der) == dt * (der * util)
  {}

  /** The active utilisation is that of the servers that are not idle and within that of all, and
      every such server's budget is accounted for and not negative. */
  lemma AccountingIsSafe(sup: GrubSupervisor, g: Grub)
    requires sup.Valid() && g in sup.servers
    ensures sup.activeU == ActiveSum(Views(sup.servers))
    ensures 0.0 <= sup.activeU <= sup.totalU == TotalSum(Views(sup.servers)) <= 1.0
    ensures g.status != Idle ==>
              && 0.0 <= g.cap.Value(sup.now)
              && g.cap.Value(sup.now) + g.util * g.vtime.Value(sup.now) == g.util * g.d as real + g.extra as real
  {
    hide Sound, ActiveSum, TotalSum;
    Positive(Views(sup.servers), sup.now, sup.activeU);
    ActiveWithinTotal(Views(sup.servers));
    if g.status != Idle {
      BudgetNow(g.View(), sup.now, sup.activeU);
    }
  }
}
