/** Multi-unit resources handed out first come, first served. */
module ResourceManagement {
  import opened Common

  /** A task asking for units of a resource. */
  datatype Claim = Claim(task: Task, nr: int)

  ghost function Sum(held: seq<int>): int {
    if held == [] then 0 else held[0] + Sum(held[1..])
  }

  lemma {:induction false} SumUpdate(held: seq<int>, t: nat, x: int)
    requires t < |held|
    ensures Sum(held[t := x]) == Sum(held) - held[t] + x
  {
    if t == 0 {
      assert held[0 := x][1..] == held[1..];
    } else {
      assert held[t := x][1..] == held[1..][t - 1 := x];
      SumUpdate(held[1..], t - 1, x);
    }
  }

  /** How many of the waiting claims a release serves: in order, while anything is available and the
      first one fits. */
  ghost function Served(q: seq<Claim>, available: int): (k: nat)
    ensures k <= |q|
  {
    if available > 0 && q != [] && q[0].nr <= available then 1 + Served(q[1..], available - q[0].nr) else 0
  }

  ghost function Units(q: seq<Claim>): int {
    if q == [] then 0 else q[0].nr + Units(q[1..])
  }

  /** When every claim is for at least one unit, the claims served are all those, in order, whose
      units together are available: no longer prefix of the queue fits. */
  lemma {:induction false} ServedIsLargest(q: seq<Claim>, available: int, j: nat)
    requires j <= |q| && 0 <= available && forall i :: 0 <= i < |q| ==> 1 <= q[i].nr
    ensures Units(q[..j]) <= available <==> j <= Served(q, available)
  {
    if j > 0 {
      assert q[..j][1..] == q[1..][..j - 1];
      UnitsNonNegative(q[1..][..j - 1]);
      if q[0].nr <= available {
        ServedIsLargest(q[1..], available - q[0].nr, j - 1);
      }
    }
  }

  lemma {:induction false} UnitsNonNegative(q: seq<Claim>)
    requires forall i :: 0 <= i < |q| ==> 1 <= q[i].nr
    ensures 0 <= Units(q)
  {
    if q != [] {
      UnitsNonNegative(q[1..]);
    }
  }

  /** Whoever waits at the head needs more than is available, or nothing is. */
  ghost predicate HeadWaits(q: seq<Claim>, available: int)
  {
    q != [] ==> available < q[0].nr || available <= 0
  }

  /** The loop goes past the i-th claim: units are left before it, and enough for it. */
  ghost predicate Passes(q: seq<Claim>, available: int, i: nat)
    requires i < |q|
  {
    Units(q[..i]) < available && Units(q[..i + 1]) <= available
  }

  /** The first j claims use up what is available, not a unit sooner, and the next asks for no more
      than is then left: nothing, or less. */
  ghost predicate UsesUp(q: seq<Claim>, available: int, j: nat)
  {
    && j < |q| && (forall i: nat :: i < j ==> Passes(q, available, i))
    && available <= Units(q[..j]) && Units(q[..j + 1]) <= available
  }

  ghost predicate StopsShort(q: seq<Claim>, available: int)
  {
    exists j: nat :: UsesUp(q, available, j)
  }

  /** A release leaves someone waiting who could be served exactly when the claims before use up what is
      available: the loop then stops without looking at the next. */
  lemma {:induction false} HeadCouldBeServedIff(q: seq<Claim>, available: int)
    ensures var k := Served(q, available);
            k < |q| && q[k].nr <= available - Units(q[..k]) <==> StopsShort(q, available)
  {
    if q != [] {
      UnitsFirst(q, 0);
      UnitsFirst(q, 1);
      if available > 0 && q[0].nr <= available {
        HeadCouldBeServedIff(q[1..], available - q[0].nr);
        UnitsFirst(q, Served(q, available));
        UsesUpInRest(q, available);
      } else {
        NothingPasses(q, available);
      }
    }
  }

  lemma UnitsFirst(q: seq<Claim>, k: nat)
    requires k <= |q|
    ensures k == 0 ==> Units(q[..k]) == 0
    ensures k > 0 ==> Units(q[..k]) == q[0].nr + Units(q[1..][..k - 1])
  {
    if k > 0 {
      assert q[..k][1..] == q[1..][..k - 1];
    }
  }

  lemma NothingPasses(q: seq<Claim>, available: int)
    requires q != [] && !(available > 0 && q[0].nr <= available)
    ensures q[0].nr <= available <==> StopsShort(q, available)
  {
    UnitsFirst(q, 0);
    UnitsFirst(q, 1);
    assert !Passes(q, available, 0);
    if q[0].nr <= available {
      assert UsesUp(q, available, 0);
    }
  }

  lemma PassesInRest(q: seq<Claim>, available: int, i: nat)
    requires q != [] && i < |q[1..]|
    ensures Passes(q[1..], available - q[0].nr, i) <==> Passes(q, available, i + 1)
  {
    UnitsFirst(q, i + 1);
    UnitsFirst(q, i + 2);
  }

  lemma UsesUpInRest(q: seq<Claim>, available: int)
    requires q != [] && available > 0 && q[0].nr <= available
    ensures StopsShort(q[1..], available - q[0].nr) <==> StopsShort(q, available)
  {
    UnitsFirst(q, 0);
    UnitsFirst(q, 1);
    var rest, left := q[1..], available - q[0].nr;
    assert Passes(q, available, 0);
    if j: nat :| UsesUp(rest, left, j) {
      forall i: nat | i < j + 1 ensures Passes(q, available, i) {
        if i > 0 {
          PassesInRest(q, available, i - 1);
        }
      }
      UnitsFirst(q, j + 1);
      UnitsFirst(q, j + 2);
      assert UsesUp(q, available, j + 1);
    }
    if j: nat :| UsesUp(q, available, j) {
      forall i: nat | i < j - 1 ensures Passes(rest, left, i) {
        PassesInRest(q, available, i);
      }
      UnitsFirst(q, j);
      UnitsFirst(q, j + 1);
      assert j > 0;
      assert UsesUp(rest, left, j - 1);
    }
  }

  /** It happens: a release of two units to claims for two and for none. */
  lemma EmptyClaimCanWait()
    ensures var q := [Claim(1, 2), Claim(2, 0)];
            Served(q, 2) == 1 && HeadWaits(q[1..], 0) && !(0 < q[1].nr) && UsesUp(q, 2, 1)
  {
    var q := [Claim(1, 2), Claim(2, 0)];
    assert Served(q, 2) == 1 + Served(q[1..], 0);
    assert q[..2] == q && q[..1] == [q[0]] && q[..0] == [];
    assert Passes(q, 2, 0);
  }

  class Resource {
    const total: int
    const initial: int
    var available: int
    var owner: Option<Task>

    ghost var held: seq<int>        // by task
    ghost var requests: seq<Claim>  // in order
    ghost var grants: seq<Claim>    // in order

    ghost predicate Conserved()
      reads this
    {
      available + Sum(held) == initial
    }

    constructor (nr: int, nrAvailable: int, ghost tasks: nat)
      ensures Conserved() && total == nr && owner == None && available == initial == nrAvailable && requests == grants == [] && |held| == tasks
    {
      total, initial, available, owner := nr, nrAvailable, nrAvailable, None;
      held, requests, grants := seq(tasks, _ => 0), [], [];
      new;
      SumZeros(tasks);
    }

    method Lock(t: Task, n: int)
      requires Conserved() && t < |held|
      modifies this
      ensures Conserved() && available == old(available) - n && owner == Some(t)
      ensures held == old(held)[t := old(held)[t] + n] && grants == old(grants) + [Claim(t, n)]
      ensures requests == old(requests)
    {
      SumUpdate(held, t, held[t] + n);
      available := available - n;
      owner := Some(t);
      held := held[t := held[t] + n];
      grants := grants + [Claim(t, n)];
    }

    method Unlock(n: int, ghost t: Task)
      requires Conserved() && t < |held|
      modifies this
      ensures Conserved() && available == old(available) + n && owner == None
      ensures held == old(held)[t := old(held)[t] - n] && grants == old(grants) && requests == old(requests)
    {
      SumUpdate(held, t, held[t] - n);
      available := available + n;
      owner := None;
      held := held[t := held[t] - n];
    }
  }

  lemma {:induction false} SumZeros(n: nat)
    ensures Sum(seq(n, _ => 0)) == 0
  {
    if n > 0 {
      assert seq(n, _ => 0)[1..] == seq(n - 1, _ => 0);
      SumZeros(n - 1);
    }
  }

  class FCFSResManager {
    var blocked: map<Resource, seq<Claim>>

    function Waiting(r: Resource): seq<Claim>
      reads this
    {
      if r in blocked then blocked[r] else []
    }

    /** Units are conserved; the grants are the requests, in their order, but for those still waiting;
        and nobody waits who could be served. */
    ghost predicate Fair(r: Resource)
      reads this, r
    {
      r.Conserved() && Ordered(r) && HeadWaits(Waiting(r), r.available)
    }

    constructor ()
      ensures blocked == map[]
    {
      blocked := map[];
    }

    /** Granted at once, or suspended behind those already waiting. */
    method Request(t: Task, r: Resource, nr: int) returns (granted: bool)
      requires Fair(r) && t < |r.held|
      modifies this, r
      ensures Fair(r) && r.requests == old(r.requests) + [Claim(t, nr)] && |r.held| == old(|r.held|)
      ensures granted <==> old(Waiting(r)) == [] && nr <= old(r.available)
      ensures granted ==> r.available == old(r.available) - nr && r.held == old(r.held)[t := old(r.held)[t] + nr]
                          && Waiting(r) == [] && r.owner == Some(t)
      ensures !granted ==> r.available == old(r.available) && r.held == old(r.held)
                           && Waiting(r) == old(Waiting(r)) + [Claim(t, nr)]
      ensures blocked - {r} == old(blocked) - {r}
    {
      r.requests := r.requests + [Claim(t, nr)];
      if |Waiting(r)| > 0 || r.available < nr {
        blocked := blocked[r := Waiting(r) + [Claim(t, nr)]];
        return false;
      }
      r.Lock(t, nr);
      return true;
    }

    /** Gives units back and serves those waiting, as long as the first of them can be; `woken` are
        the tasks activated. */
    method Release(t: Task, r: Resource, nr: int) returns (woken: seq<Claim>)
      requires Fair(r) && t < |r.held|
      modifies this, r
      ensures Fair(r) && r.requests == old(r.requests) && |r.held| == old(|r.held|)
      ensures woken == old(Waiting(r))[..Served(old(Waiting(r)), old(r.available) + nr)]
      ensures Waiting(r) == old(Waiting(r))[|woken|..] && r.grants == old(r.grants) + woken
      ensures r.available == old(r.available) + nr - Units(woken)
      ensures Waiting(r) != [] && Waiting(r)[0].nr <= r.available <==>
              StopsShort(old(Waiting(r)), old(r.available) + nr)
      ensures r.owner == if woken == [] then None else Some(woken[|woken| - 1].task)
      ensures blocked - {r} == old(blocked) - {r}
    {
      hide Served, Units, Sum, StopsShort;
      r.Unlock(nr, t);
      assert Ordered(r);
      hide Ordered, Resource.Conserved;
      var nrAvailable := r.available;
      ghost var queue := Waiting(r);
      woken := [];
      assert queue[..0] == [] && queue[0..] == queue;
      NoUnits();
      while nrAvailable > 0 && Waiting(r) != []
        invariant |woken| <= |queue| && woken == queue[..|woken|] && Waiting(r) == queue[|woken|..]
        invariant r.Conserved() && Ordered(r) && r.requests == old(r.requests) && |r.held| == old(|r.held|)
        invariant r.grants == old(r.grants) + woken && blocked - {r} == old(blocked) - {r}
        invariant r.available == old(r.available) + nr - Units(woken)
        invariant r.owner == if woken == [] then None else Some(woken[|woken| - 1].task)
        invariant nrAvailable == r.available || (nrAvailable <= 0 && Waiting(r) != [] && r.available < Waiting(r)[0].nr)
        invariant Served(queue, old(r.available) + nr) == |woken| + Served(Waiting(r), r.available)
        decreases |Waiting(r)|, nrAvailable
      {
        var head := Waiting(r)[0];
        ServedStep(Waiting(r), r.available);
        if head.nr <= nrAvailable {
          UnitsAppend(woken, head);
          assert queue[|woken|] == head && queue[|woken|..][1..] == queue[|woken| + 1..];
          ServeHead(r);
          woken := woken + [head];
        }
        nrAvailable := nrAvailable - head.nr;
      }
      ServedStep(Waiting(r), r.available);
      HeadCouldBeServedIff(queue, old(r.available) + nr);
    }

    ghost predicate Ordered(r: Resource)
      reads this, r
    {
      r.requests == r.grants + Waiting(r) && forall i :: 0 <= i < |r.requests| ==> r.requests[i].task < |r.held|
    }

    /** The claim that waits first is granted. */
    method ServeHead(r: Resource)
      requires r.Conserved() && Ordered(r) && Waiting(r) != []
      modifies this, r
      ensures r.Conserved() && Ordered(r) && r.requests == old(r.requests) && |r.held| == old(|r.held|)
      ensures Waiting(r) == old(Waiting(r))[1..] && blocked - {r} == old(blocked) - {r}
      ensures r.grants == old(r.grants) + [old(Waiting(r))[0]]
      ensures r.available == old(r.available) - old(Waiting(r))[0].nr && r.owner == Some(old(Waiting(r))[0].task)
    {
      var head := Waiting(r)[0];
      assert r.requests[|r.grants|] == head;
      blocked := blocked[r := Waiting(r)[1..]];
      r.Lock(head.task, head.nr);
    }
  }

  /** When every claim is for at least one unit and tasks only release what they hold: the grants are
      the first of the requests, in their order; whoever waits at the head needs more than is
      available; and what is available or held is what there was, so never more than that. */
  lemma FairAllocation(m: FCFSResManager, r: Resource)
    requires m.Fair(r) && forall i :: 0 <= i < |r.requests| ==> 1 <= r.requests[i].nr
    requires forall t :: 0 <= t < |r.held| ==> 0 <= r.held[t]
    ensures |r.grants| <= |r.requests| && r.grants == r.requests[..|r.grants|]
    ensures m.Waiting(r) == r.requests[|r.grants|..]
    ensures |r.grants| < |r.requests| ==> r.available < r.requests[|r.grants|].nr
    ensures r.available + Sum(r.held) == r.initial && r.available <= r.initial
  {
    SumNonNegative(r.held);
  }

  lemma {:induction false} SumNonNegative(held: seq<int>)
    requires forall t :: 0 <= t < |held| ==> 0 <= held[t]
    ensures 0 <= Sum(held)
  {
    if held != [] {
      SumNonNegative(held[1..]);
    }
  }

  lemma ServedStep(q: seq<Claim>, available: int)
    ensures Served(q, available) ==
            if available > 0 && q != [] && q[0].nr <= available then 1 + Served(q[1..], available - q[0].nr) else 0
  {}

  lemma NoUnits()
    ensures Units([]) == 0
  {}

  lemma {:induction false} UnitsAppend(q: seq<Claim>, c: Claim)
    ensures Units(q + [c]) == Units(q) + c.nr
  {
    if q == [] {
      assert q + [c] == [c];
    } else {
      assert (q + [c])[1..] == q[1..] + [c];
      UnitsAppend(q[1..], c);
    }
  }
}
