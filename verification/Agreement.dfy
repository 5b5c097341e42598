/** The two admission supervisors answer alike, and keep the server set schedulable
    over whole runs of requests. */
module Agreement {
  import opened Demand
  import opened SchedRtaSupervisor
  import opened SchedPointSupervisor

  datatype Request = Request(server: nat, db: int)

  /** The budgets response-time analysis leaves after a request. */
  ghost function RtaStep(P: seq<int>, Q: seq<int>, r: Request): (Q': seq<int>)
    requires ServerSet(P, Q) && r.server < |P|
    ensures |Q'| == |Q|
  {
    Q[r.server := Q[r.server] + Granted(P, Q, r.server, r.db)]
  }

  /** The budgets the scheduling points leave: the same, but never below 1. */
  ghost function PointStep(P: seq<int>, Q: seq<int>, r: Request): (Q': seq<int>)
    requires ServerSet(P, Q) && r.server < |P|
    ensures |Q'| == |Q|
  {
    var b := Q[r.server] + Granted(P, Q, r.server, r.db);
    Q[r.server := if b < 1 then 1 else b]
  }

  ghost predicate Requests(rs: seq<Request>, n: nat)
  {
    forall h :: 0 <= h < |rs| ==> rs[h].server < n
  }

  ghost function RtaRun(P: seq<int>, Q: seq<int>, rs: seq<Request>): (Q': seq<int>)
    requires ServerSet(P, Q) && Requests(rs, |P|)
    ensures |Q'| == |Q|
  {
    if rs == [] then Q else RtaStep(P, RtaRun(P, Q, rs[..|rs| - 1]), rs[|rs| - 1])
  }

  ghost function PointRun(P: seq<int>, Q: seq<int>, rs: seq<Request>): (Q': seq<int>)
    requires ServerSet(P, Q) && Requests(rs, |P|)
    ensures |Q'| == |Q|
  {
    if rs == [] then Q else PointStep(P, PointRun(P, Q, rs[..|rs| - 1]), rs[|rs| - 1])
  }

  lemma StepsKeepSchedulable(P: seq<int>, Q: seq<int>, r: Request)
    requires ServerSet(P, Q) && AllSchedulable(P, Q) && r.server < |P|
    ensures AllSchedulable(P, RtaStep(P, Q, r))
    ensures Q[r.server] >= 1 ==> AllSchedulable(P, PointStep(P, Q, r))
  {
    GrantedIsLargest(P, Q, r.server, r.db);
    assert Admits(P, Q, r.server, Q[r.server] + Granted(P, Q, r.server, r.db));
    if Q[r.server] >= 1 {
      AdmitsCurrent(P, Q, r.server);
      AdmitsAntitone(P, Q, r.server, 1, Q[r.server]);
      assert Admits(P, Q, r.server, 1);
    }
  }

  /** Whatever is requested, every server stays schedulable under response-time analysis. */
  lemma {:induction false} RtaRunKeepsSchedulable(P: seq<int>, Q: seq<int>, rs: seq<Request>)
    requires ServerSet(P, Q) && AllSchedulable(P, Q) && Requests(rs, |P|)
    ensures AllSchedulable(P, RtaRun(P, Q, rs))
  {
    if rs != [] {
      RtaRunKeepsSchedulable(P, Q, rs[..|rs| - 1]);
      StepsKeepSchedulable(P, RtaRun(P, Q, rs[..|rs| - 1]), rs[|rs| - 1]);
    }
  }

  /** The same under the scheduling points, whose budgets also stay positive. */
  lemma {:induction false} PointRunKeepsSchedulable(P: seq<int>, Q: seq<int>, rs: seq<Request>)
    requires ServerSet(P, Q) && AtLeast(Q, 1) && AllSchedulable(P, Q) && Requests(rs, |P|)
    ensures AllSchedulable(P, PointRun(P, Q, rs)) && AtLeast(PointRun(P, Q, rs), 1)
  {
    if rs != [] {
      PointRunKeepsSchedulable(P, Q, rs[..|rs| - 1]);
      StepsKeepSchedulable(P, PointRun(P, Q, rs[..|rs| - 1]), rs[|rs| - 1]);
    }
  }

  /** No budget ever falls below `low` in the run. */
  ghost predicate StaysAtLeast(P: seq<int>, Q: seq<int>, rs: seq<Request>, low: int)
    requires ServerSet(P, Q) && Requests(rs, |P|)
  {
    AtLeast(RtaRun(P, Q, rs), low) && (rs == [] || StaysAtLeast(P, Q, rs[..|rs| - 1], low))
  }

  /** After every request both supervisors hold the same budgets. */
  ghost predicate AlwaysEqual(P: seq<int>, Q: seq<int>, rs: seq<Request>)
    requires ServerSet(P, Q) && Requests(rs, |P|)
  {
    RtaRun(P, Q, rs) == PointRun(P, Q, rs) && (rs == [] || AlwaysEqual(P, Q, rs[..|rs| - 1]))
  }

  lemma StepsEqual(P: seq<int>, Q: seq<int>, r: Request)
    requires ServerSet(P, Q) && AtLeast(Q, 1) && r.server < |P|
    ensures AtLeast(RtaStep(P, Q, r), 1) <==> RtaStep(P, Q, r) == PointStep(P, Q, r)
    ensures r.db > 0 ==> RtaStep(P, Q, r) == PointStep(P, Q, r)
  {
    var next := RtaStep(P, Q, r);
    if next[r.server] >= 1 {
      forall j | 0 <= j < |next| ensures next[j] >= 1 {
        assert j != r.server ==> next[j] == Q[j];
      }
    }
    assert PointStep(P, Q, r)[r.server] >= 1;
  }

  /** The supervisors part exactly when some request takes a budget below 1, where the
      scheduling points hold on to 1. */
  lemma {:induction false} RunsAgree(P: seq<int>, Q: seq<int>, rs: seq<Request>)
    requires ServerSet(P, Q) && AtLeast(Q, 1) && Requests(rs, |P|)
    ensures AlwaysEqual(P, Q, rs) <==> StaysAtLeast(P, Q, rs, 1)
  {
    if rs != [] {
      var init := rs[..|rs| - 1];
      RunsAgree(P, Q, init);
      if AlwaysEqual(P, Q, init) {
        PositiveEnd(P, Q, init);
        StepsEqual(P, RtaRun(P, Q, init), rs[|rs| - 1]);
      }
    }
  }

  lemma PositiveEnd(P: seq<int>, Q: seq<int>, rs: seq<Request>)
    requires ServerSet(P, Q) && Requests(rs, |P|) && StaysAtLeast(P, Q, rs, 1)
    ensures AtLeast(RtaRun(P, Q, rs), 1)
  {}

  /** A request that takes a budget below 1 parts them: asked to take 2 from a budget of 2, one
      supervisor is left with 0 and the other with 1. */
  lemma RunsCanPart()
    ensures ServerSet([10], [2]) && AtLeast([2], 1) && AllSchedulable([10], [2]) && Requests([Request(0, -2)], 1)
    ensures RtaRun([10], [2], [Request(0, -2)]) == [0] && PointRun([10], [2], [Request(0, -2)]) == [1]
    ensures !StaysAtLeast([10], [2], [Request(0, -2)], 1)
  {
    assert MetAt([10], [2], 0, 2);
    var rs := [Request(0, -2)];
    assert rs[..|rs| - 1] == [];
    assert RtaStep([10], [2], rs[0]) == [0] && PointStep([10], [2], rs[0]) == [1];
    assert RtaRun([10], [2], rs) == [0];
    assert [0][0] < 1;
  }

  /** Puts one request to both supervisors in the same schedulable state: they grant the same. */
  method AskBoth(rta: SchedRTA, sp: SchedPoint, server: nat, db: int) returns (d1: int, d2: int)
    requires rta.Valid() && sp.Valid() && sp.Built()
    requires rta.P() == sp.period && rta.Q() == sp.wcet
    requires AtLeast(sp.wcet, 1) && AllSchedulable(sp.period, sp.wcet)
    requires Registered(rta.servers, server)
    requires server in sp.servers && sp.servers[server] == Position(rta.servers, server)
    modifies rta, sp
    ensures rta.Valid() && sp.Valid() && sp.Built() && rta.P() == sp.period == old(sp.period)
    ensures d1 == d2 == Granted(sp.period, old(sp.wcet), old(sp.servers)[server], db)
    ensures rta.Q() == RtaStep(sp.period, old(sp.wcet), Request(old(sp.servers)[server], db))
    ensures sp.wcet == PointStep(sp.period, old(sp.wcet), Request(old(sp.servers)[server], db))
  {
    BudgetWithinPeriod(sp.period, sp.wcet, Position(rta.servers, server));
    d1 := rta.ChangeBudget(server, db);
    d2 := sp.ChangeBudget(server, db);
  }

  // ------------------------------------------------------------------ runs of the two supervisors

  ghost predicate AllRegistered(servers: seq<ServerInfo>, asks: seq<Request>)
  {
    forall h :: 0 <= h < |asks| ==> Registered(servers, asks[h].server)
  }

  /** Requests that name servers, as requests that name their positions. */
  ghost function AtPositions(servers: seq<ServerInfo>, asks: seq<Request>): (rs: seq<Request>)
    requires AllRegistered(servers, asks)
    ensures Requests(rs, |servers|)
  {
    seq(|asks|, h requires 0 <= h < |asks| => Request(Position(servers, asks[h].server), asks[h].db))
  }

  ghost predicate AllAdded(servers: map<nat, nat>, asks: seq<Request>, n: nat)
  {
    forall h :: 0 <= h < |asks| ==> asks[h].server in servers && servers[asks[h].server] < n
  }

  ghost function AtIndices(servers: map<nat, nat>, asks: seq<Request>, n: nat): (rs: seq<Request>)
    requires AllAdded(servers, asks, n)
    ensures Requests(rs, n)
  {
    seq(|asks|, h requires 0 <= h < |asks| => Request(servers[asks[h].server], asks[h].db))
  }

  lemma {:induction false} StaysSoFar(P: seq<int>, Q: seq<int>, rs: seq<Request>, low: int, h: nat)
    requires ServerSet(P, Q) && Requests(rs, |P|) && h <= |rs| && StaysAtLeast(P, Q, rs, low)
    ensures StaysAtLeast(P, Q, rs[..h], low) && AtLeast(RtaRun(P, Q, rs[..h]), low)
  {
    if h < |rs| {
      StaysSoFar(P, Q, rs[..|rs| - 1], low, h);
      assert rs[..|rs| - 1][..h] == rs[..h];
    } else {
      assert rs[..h] == rs;
    }
  }

  lemma {:induction false} StaysHigher(P: seq<int>, Q: seq<int>, rs: seq<Request>)
    requires ServerSet(P, Q) && Requests(rs, |P|) && StaysAtLeast(P, Q, rs, 1)
    ensures StaysAtLeast(P, Q, rs, 0)
  {
    if rs != [] {
      StaysHigher(P, Q, rs[..|rs| - 1]);
    }
  }

  lemma OneMoreRequest(P: seq<int>, Q: seq<int>, rs: seq<Request>, h: nat)
    requires ServerSet(P, Q) && Requests(rs, |P|) && h < |rs|
    ensures RtaRun(P, Q, rs[..h + 1]) == RtaStep(P, RtaRun(P, Q, rs[..h]), rs[h])
    ensures PointRun(P, Q, rs[..h + 1]) == PointStep(P, PointRun(P, Q, rs[..h]), rs[h])
  {
    assert rs[..h + 1][..h] == rs[..h];
  }

  method RtaRequest(rta: SchedRTA, ask: Request)
    requires rta.Valid() && Registered(rta.servers, ask.server)
    requires forall j :: 0 <= j < |rta.servers| ==> rta.Q()[j] <= rta.P()[j]
    modifies rta
    ensures rta.Valid() && rta.P() == old(rta.P()) && |rta.servers| == old(|rta.servers|)
    ensures forall j :: 0 <= j < |rta.servers| ==> rta.servers[j].server == old(rta.servers)[j].server
    ensures forall j :: 0 <= j < |rta.servers| ==> rta.Q()[j] <= rta.P()[j]
    ensures AtLeast(old(rta.Q()), 0) && AllSchedulable(rta.P(), old(rta.Q())) ==>
              rta.Q() == RtaStep(rta.P(), old(rta.Q()), Request(Position(old(rta.servers), ask.server), ask.db))
  {
    ghost var k := Position(rta.servers, ask.server);
    assert rta.P()[k] == rta.servers[k].P && rta.Q()[k] == rta.servers[k].Q;
    var _ := rta.ChangeBudget(ask.server, ask.db);
  }

  /** A supervisor asked again and again holds the budgets of the run, as long as none is negative. */
  method RtaRequests(rta: SchedRTA, asks: seq<Request>)
    requires rta.Valid() && AllSchedulable(rta.P(), rta.Q()) && AllRegistered(rta.servers, asks)
    requires forall j :: 0 <= j < |rta.servers| ==> rta.Q()[j] <= rta.P()[j]
    modifies rta
    ensures rta.Valid() && rta.P() == old(rta.P())
    ensures var rs := AtPositions(old(rta.servers), asks);
            StaysAtLeast(rta.P(), old(rta.Q()), rs, 0) ==> rta.Q() == RtaRun(rta.P(), old(rta.Q()), rs)
  {
    ghost var servers, p, q := rta.servers, rta.P(), rta.Q();
    ghost var rs := AtPositions(servers, asks);
    assert RtaRun(p, q, rs[..0]) == q;
    hide RtaRun, RtaStep, StaysAtLeast, SchedulableFrom, Position;
    for h := 0 to |asks|
      invariant rta.Valid() && rta.P() == p && |rta.servers| == |servers|
      invariant forall j :: 0 <= j < |servers| ==> rta.servers[j].server == servers[j].server
      invariant forall j :: 0 <= j < |servers| ==> rta.Q()[j] <= p[j]
      invariant StaysAtLeast(p, q, rs, 0) ==> rta.Q() == RtaRun(p, q, rs[..h])
    {
      SamePosition(servers, rta.servers, asks[h].server);
      if StaysAtLeast(p, q, rs, 0) {
        StaysSoFar(p, q, rs, 0, h);
        RtaRunKeepsSchedulable(p, q, rs[..h]);
        OneMoreRequest(p, q, rs, h);
      }
      RtaRequest(rta, asks[h]);
    }
    assert rs[..|asks|] == rs;
  }

  /** The other one always holds the budgets of its run. */
  method PointRequests(sp: SchedPoint, asks: seq<Request>)
    requires sp.Valid() && sp.Built() && AllAdded(sp.servers, asks, |sp.period|)
    requires AtLeast(sp.wcet, 1) && AllSchedulable(sp.period, sp.wcet)
    modifies sp
    ensures sp.Valid() && sp.Built() && sp.period == old(sp.period)
    ensures sp.wcet == PointRun(sp.period, old(sp.wcet), AtIndices(old(sp.servers), asks, |sp.period|))
  {
    ghost var p, q := sp.period, sp.wcet;
    ghost var rs := AtIndices(sp.servers, asks, |p|);
    for h := 0 to |asks|
      invariant sp.Valid() && sp.Built() && sp.period == p && sp.servers == old(sp.servers)
      invariant sp.wcet == PointRun(p, q, rs[..h])
    {
      PointRunKeepsSchedulable(p, q, rs[..h]);
      OneMoreRequest(p, q, rs, h);
      var _ := sp.ChangeBudget(asks[h].server, asks[h].db);
    }
    assert rs[..|asks|] == rs;
  }

  /** The same requests, put to both supervisors from the same schedulable state, leave them with the
      same budgets if none takes a budget below 1. */
  method AskBothAll(rta: SchedRTA, sp: SchedPoint, asks: seq<Request>)
    requires rta.Valid() && sp.Valid() && sp.Built()
    requires rta.P() == sp.period && rta.Q() == sp.wcet
    requires AtLeast(sp.wcet, 1) && AllSchedulable(sp.period, sp.wcet)
    requires AllRegistered(rta.servers, asks) && AllAdded(sp.servers, asks, |sp.period|)
    requires AtPositions(rta.servers, asks) == AtIndices(sp.servers, asks, |sp.period|)
    modifies rta, sp
    ensures StaysAtLeast(old(sp.period), old(sp.wcet), AtPositions(old(rta.servers), asks), 1) ==> rta.Q() == sp.wcet
  {
    ghost var p, q, rs := sp.period, sp.wcet, AtPositions(rta.servers, asks);
    forall j | 0 <= j < |rta.servers| ensures rta.Q()[j] <= rta.P()[j] {
      BudgetWithinPeriod(p, q, j);
    }
    RtaRequests(rta, asks);
    PointRequests(sp, asks);
    if StaysAtLeast(p, q, rs, 1) {
      StaysHigher(p, q, rs);
      RunsAgree(p, q, rs);
    }
  }
}
