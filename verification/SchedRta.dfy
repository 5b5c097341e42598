/** The admission supervisor that runs response-time analysis. */
module SchedRtaSupervisor {
  import opened Common
  import opened Demand

  /** What the supervisor keeps of a server: its identity, budget, period and last response time. */
  datatype ServerInfo = ServerInfo(server: nat, Q: int, P: int, R: int)

  function BudgetsOf(s: seq<ServerInfo>): (q: seq<int>)
    ensures |q| == |s|
  {
    seq(|s|, i requires 0 <= i < |s| => s[i].Q)
  }

  function PeriodsOf(s: seq<ServerInfo>): (p: seq<int>)
    ensures |p| == |s|
  {
    seq(|s|, i requires 0 <= i < |s| => s[i].P)
  }

  predicate Registered(s: seq<ServerInfo>, server: nat)
  {
    exists i :: 0 <= i < |s| && s[i].server == server
  }

  /** The first position of a registered server. */
  ghost function Position(s: seq<ServerInfo>, server: nat): (i: nat)
    requires Registered(s, server)
    ensures i < |s| && s[i].server == server
  {
    if s[0].server == server then
      0
    else
      assert Registered(s[1..], server) by {
        var i :| 0 <= i < |s| && s[i].server == server;
        assert s[1..][i - 1].server == server;
      }
      1 + Position(s[1..], server)
  }

  lemma {:induction false} PositionIsFirst(s: seq<ServerInfo>, server: nat, i: nat)
    requires i < |s| && s[i].server == server
    requires forall j :: 0 <= j < i ==> s[j].server != server
    ensures Position(s, server) == i
  {
    if i > 0 {
      assert s[1..][i - 1].server == server;
      PositionIsFirst(s[1..], server, i - 1);
    }
  }

  /** Positions depend on the servers' identities alone. */
  lemma {:induction false} SamePosition(s: seq<ServerInfo>, s': seq<ServerInfo>, server: nat)
    requires |s| == |s'| && forall j :: 0 <= j < |s| ==> s'[j].server == s[j].server
    requires Registered(s, server)
    ensures Registered(s', server) && Position(s', server) == Position(s, server)
  {
    var i := Position(s, server);
    PositionComesFirst(s, server);
    PositionIsFirst(s', server, i);
  }

  lemma {:induction false} PositionComesFirst(s: seq<ServerInfo>, server: nat)
    requires Registered(s, server)
    ensures forall j :: 0 <= j < Position(s, server) ==> s[j].server != server
  {
    if s[0].server != server {
      var i :| 0 <= i < |s| && s[i].server == server;
      assert s[1..][i - 1].server == server;
      PositionComesFirst(s[1..], server);
      forall j | 0 < j < Position(s, server) ensures s[j].server != server {
        assert s[1..][j - 1] == s[j];
      }
    }
  }

  lemma RaiseAtLeast(q: seq<int>, i: nat, low: int, high: int)
    requires i < |q| && low <= high
    ensures AtLeast(q[i := low], 0) ==> AtLeast(q[i := high], 0)
  {
    if AtLeast(q[i := low], 0) {
      var q', q'' := q[i := low], q[i := high];
      forall j | 0 <= j < |q| ensures q''[j] >= 0 {
        assert q'[j] >= 0;
      }
    }
  }

  /** r is not past any instant at which server i's demand is met. */
  ghost predicate Below(P: seq<int>, Q: seq<int>, i: nat, r: int)
    requires ServerSet(P, Q) && i < |P|
  {
    && 0 <= r <= LevelDemand(P, Q, i, r)
    && forall t :: 0 <= t && MetAt(P, Q, i, t) ==> r <= t
  }

  lemma StartsBelow(P: seq<int>, Q: seq<int>, i: nat)
    requires ServerSet(P, Q) && AtLeast(Q, 0) && i < |P|
    ensures Below(P, Q, i, Q[i])
  {
    InterferenceNonNegative(P, Q, i, Q[i]);
    forall t | 0 <= t && MetAt(P, Q, i, t) ensures Q[i] <= t {
      InterferenceNonNegative(P, Q, i, t);
    }
  }

  lemma StaysBelow(P: seq<int>, Q: seq<int>, i: nat, r: int)
    requires ServerSet(P, Q) && AtLeast(Q, 0) && i < |P| && Below(P, Q, i, r)
    ensures Below(P, Q, i, LevelDemand(P, Q, i, r))
  {
    InterferenceMonotone(P, Q, i, r, LevelDemand(P, Q, i, r));
    forall t | 0 <= t && MetAt(P, Q, i, t) ensures LevelDemand(P, Q, i, r) <= t {
      InterferenceMonotone(P, Q, i, r, t);
    }
  }

  // ------------------------------------------------------------------ when the bisection ends

  /** The bisection ends: always on an interval the right way round, and on one the wrong way round
      when its middle budget passes. */
  ghost predicate Ends(P: seq<int>, Q: seq<int>, i: nat, b1: int, b2: int)
    requires ServerSet(P, Q) && i < |P|
  {
    b1 <= b2 || (0 <= b2 && AtLeast(Q[i := b2], 0) && SchedulableFrom(P, Q[i := TruncDiv(b1 + b2, 2)], i))
  }

  lemma EndsLower(P: seq<int>, Q: seq<int>, i: nat, b1: int, b2: int)
    requires ServerSet(P, Q) && i < |P| && b2 < b1 && Ends(P, Q, i, b1, b2)
    ensures var mid := TruncDiv(b1 + b2, 2);
            b2 <= mid < b1 && AtLeast(Q[i := mid], 0) && Ends(P, Q, i, mid, b2)
  {
    var mid := TruncDiv(b1 + b2, 2);
    RaiseAtLeast(Q, i, b2, mid);
    FromAntitone(P, Q, i, TruncDiv(mid + b2, 2), mid, i);
  }

  /** On any other interval of budgets it does not: the search goes on above the failing middle, on an
      interval that is again the wrong way round with a failing middle. */
  lemma NeverEnds(P: seq<int>, Q: seq<int>, i: nat, b1: int, b2: int)
    requires ServerSet(P, Q) && i < |P| && 0 <= b2 && AtLeast(Q[i := b2], 0) && !Ends(P, Q, i, b1, b2)
    ensures var mid := TruncDiv(b1 + b2, 2);
            && b2 <= mid < b1 && !SchedulableFrom(P, Q[i := mid], i)
            && AtLeast(Q[i := mid], 0) && !Ends(P, Q, i, b1, mid)
  {
    var mid := TruncDiv(b1 + b2, 2);
    RaiseAtLeast(Q, i, b2, mid);
    FromAntitone(P, Q, i, mid, TruncDiv(b1 + mid, 2), i);
  }

  class SchedRTA {
    var servers: seq<ServerInfo>

    ghost predicate Valid()
      reads this
    {
      Demand.Periods(PeriodsOf(servers))
    }

    ghost function P(): (p: seq<int>)
      reads this
      ensures |p| == |servers|
    {
      PeriodsOf(servers)
    }

    ghost function Q(): (q: seq<int>)
      reads this
      ensures |q| == |servers|
    {
      BudgetsOf(servers)
    }

    /** One turn of the demand recurrence. */
    method NextResponseTime(i: nat, rCur: int) returns (rNew: int)
      requires Valid() && i < |servers|
      ensures 0 <= rCur ==> rNew == LevelDemand(P(), Q(), i, rCur)
    {
      ghost var p, q := P(), Q();
      rNew := servers[i].Q;
      for j := 0 to i
        invariant 0 <= rCur ==> rNew == servers[i].Q + Interference(p, q, j, rCur)
      {
        assert p[j] == servers[j].P && q[j] == servers[j].Q;
        rNew := rNew + TruncDiv(rCur + servers[j].P - 1, servers[j].P) * servers[j].Q;
      }
    }

    /** Iterates the demand recurrence from the server's own budget. The answer is within the
        period exactly when the server is schedulable, and is then the least instant, and a
        fixed point, at which its demand is met. It terminates whatever the budgets are. */
    method ComputeResponseTime(i: nat) returns (r: int)
      requires Valid() && i < |servers|
      ensures AtLeast(Q(), 0) ==> (r <= servers[i].P <==> Schedulable(P(), Q(), i))
      ensures AtLeast(Q(), 0) && r <= servers[i].P ==>
                LevelDemand(P(), Q(), i, r) == r && forall t :: 0 <= t && MetAt(P(), Q(), i, t) ==> r <= t
    {
      ghost var exact := AtLeast(Q(), 0);
      ghost var p, q := P(), Q();
      var rCur;
      var rNew := servers[i].Q;
      if exact {
        StartsBelow(p, q, i);
      }
      while true
        invariant exact ==> Below(p, q, i, rNew)
        decreases servers[i].P - rNew
      {
        rCur := rNew;
        rNew := NextResponseTime(i, rCur);
        if exact {
          StaysBelow(p, q, i, rCur);
        }
        if !(rNew > rCur && rNew <= servers[i].P) {
          break;
        }
      }
      r := rNew;
      if exact && r <= servers[i].P {
        assert MetAt(p, q, i, r);
      }
    }

    /** Stores every server's response time. */
    method UpdateResponseTimes()
      requires Valid()
      modifies this
      ensures P() == old(P()) && Q() == old(Q()) && |servers| == |old(servers)|
      ensures AtLeast(Q(), 0) ==>
                forall i :: 0 <= i < |servers| ==> (servers[i].R <= servers[i].P <==> Schedulable(P(), Q(), i))
      ensures AtLeast(Q(), 0) ==>
                forall i :: 0 <= i < |servers| && servers[i].R <= servers[i].P ==>
                    MetAt(P(), Q(), i, servers[i].R) && forall t :: 0 <= t && MetAt(P(), Q(), i, t) ==> servers[i].R <= t
    {
      for i := 0 to |servers|
        invariant Valid() && P() == old(P()) && Q() == old(Q())
        invariant AtLeast(Q(), 0) ==>
                    forall h :: 0 <= h < i ==> (servers[h].R <= servers[h].P <==> Schedulable(P(), Q(), h))
        invariant AtLeast(Q(), 0) ==>
                    forall h :: 0 <= h < i && servers[h].R <= servers[h].P ==>
                        MetAt(P(), Q(), h, servers[h].R) && forall t :: 0 <= t && MetAt(P(), Q(), h, t) ==> servers[h].R <= t
      {
        var r := ComputeResponseTime(i);
        ghost var p, q := P(), Q();
        servers := servers[i := servers[i].(R := r)];
        assert P() == p && Q() == q;
      }
    }

    /** Tests a budget on server i and all below it, and puts the old budget back. */
    method TryBudget(i: nat, b: int) returns (schedules: bool)
      requires Valid() && i < |servers|
      modifies this
      ensures servers == old(servers)
      ensures AtLeast(Q()[i := b], 0) ==> (schedules <==> SchedulableFrom(P(), Q()[i := b], i))
    {
      var oldB := servers[i].Q;
      servers := servers[i := servers[i].(Q := b)];
      ghost var p, q, changed := P(), Q(), servers;
      assert p == old(P()) && q == old(Q())[i := b];
      var r := ComputeResponseTime(i);
      schedules := r <= servers[i].P;
      var j := i + 1;
      while schedules && j < |servers|
        invariant i < j <= |servers| && servers == changed
        invariant AtLeast(q, 0) ==> (schedules <==> forall h :: i <= h < j ==> Schedulable(p, q, h))
      {
        r := ComputeResponseTime(j);
        schedules := r <= servers[j].P;
        j := j + 1;
      }
      servers := servers[i := servers[i].(Q := oldB)];
      assert Q()[i := b] == q;
      assert AtLeast(q, 0) ==> (schedules <==> SchedulableFrom(p, q, i));
    }

    /** Bisection between a budget that is kept whatever it is and one that is tested. On an interval the
        wrong way round it ends, if at all, at the lower end. */
    method SearchBetween(i: nat, b1: int, b2: int) returns (b: int)
      requires Valid() && i < |servers| && Ends(P(), Q(), i, b1, b2)
      modifies this
      decreases if b1 <= b2 then b2 - b1 else b1 - b2
      ensures servers == old(servers)
      ensures if b1 <= b2 then b1 <= b <= b2 else b == b2
      ensures AtLeast(Q()[i := b1], 0) && b1 <= b2 ==> b == b1 || SchedulableFrom(P(), Q()[i := b], i)
      ensures AtLeast(Q()[i := b1], 0) ==> b == b2 || !SchedulableFrom(P(), Q()[i := b + 1], i)
    {
      ghost var p, q := P(), Q();
      if b1 == b2 {
        return b1;
      }
      if b2 == b1 + 1 {
        var ok := TryBudget(i, b2);
        RaiseAtLeast(Q(), i, b1, b2);
        return if ok then b2 else b1;
      }
      var mid := TruncDiv(b1 + b2, 2);
      if b1 <= b2 {
        RaiseAtLeast(q, i, b1, mid);
      } else {
        EndsLower(p, q, i, b1, b2);
      }
      var ok := TryBudget(i, mid);
      if ok {
        b := SearchBetween(i, mid, b2);
      } else {
        b := SearchBetween(i, b1, mid);
      }
    }

    /** The largest budget that keeps every server schedulable, when the present one does. */
    method SearchBudget(i: nat) returns (b: int)
      requires Valid() && i < |servers| && Ends(P(), Q(), i, servers[i].Q, servers[i].P)
      modifies this
      ensures servers == old(servers)
      ensures if servers[i].Q <= servers[i].P then servers[i].Q <= b <= servers[i].P else b == servers[i].P
      ensures AtLeast(Q(), 0) && AllSchedulable(P(), Q()) ==> Admits(P(), Q(), i, b)
      ensures AtLeast(Q(), 0) && AllSchedulable(P(), Q()) ==> forall c :: b < c ==> !Admits(P(), Q(), i, c)
    {
      ghost var p, q := P(), Q();
      assert q[i := servers[i].Q] == q;
      b := SearchBetween(i, servers[i].Q, servers[i].P);
      if AtLeast(q, 0) && AllSchedulable(p, q) {
        BudgetWithinPeriod(p, q, i);
        AdmitsCurrent(p, q, i);
        AdmitsBySuffix(p, q, i, b);
        AdmitsBySuffix(p, q, i, b + 1);
        forall c | b < c ensures !Admits(p, q, i, c) {
          if Admits(p, q, i, c) {
            AdmitsAntitone(p, q, i, b + 1, c);
            BudgetWithinPeriod(p, q[i := b + 1], i);
          }
        }
      }
    }

    /** Answers a request to change a server's budget by `db`, and installs the new budget. */
    method ChangeBudget(server: nat, db: int) returns (delta: int)
      requires Valid() && Registered(servers, server)
      requires var k := Position(servers, server); Ends(P(), Q(), k, servers[k].Q, servers[k].P)
      modifies this
      ensures Valid() && P() == old(P()) && delta <= db
      ensures var k := Position(old(servers), server);
              db <= 0 && old(servers)[k].Q <= old(servers)[k].P ==> delta == db
      ensures var k := Position(old(servers), server);
              && Q() == old(Q())[k := old(Q())[k] + delta] && old(Q())[k] + delta <= P()[k]
              && (AtLeast(old(Q()), 0) && AllSchedulable(P(), old(Q())) ==> delta == Granted(P(), old(Q()), k, db))
      ensures |servers| == |old(servers)|
      ensures forall j :: 0 <= j < |servers| ==> servers[j].server == old(servers)[j].server
    {
      ghost var p, q := P(), Q();
      var i := 0;
      while i < |servers|
        invariant 0 <= i <= |servers|
        invariant forall j :: 0 <= j < i ==> servers[j].server != server
      {
        if servers[i].server == server {
          break;
        }
        i := i + 1;
      }
      PositionIsFirst(servers, server, i);
      var curB := servers[i].Q;
      var newB := curB + db;
      var maxB := SearchBudget(i);
      if AtLeast(q, 0) && AllSchedulable(p, q) {
        BudgetWithinPeriod(p, q, i);
      }
      if newB > maxB {
        newB := maxB;
      }
      if AtLeast(q, 0) && AllSchedulable(p, q) && db > 0 {
        AdmitsAntitone(p, q, i, newB, maxB);
        GrantedByTests(p, q, i, db, newB - curB);
      }
      servers := servers[i := servers[i].(Q := newB)];
      assert P() == p && Q() == q[i := newB];
      delta := newB - curB;
    }
  }
}
