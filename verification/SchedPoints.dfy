/** The reduced set of scheduling points at which testing the demand suffices. */
module SchedulingPoints {
  import opened Demand

  /** The multiple of `p` at or below `x`. */
  function FloorTo(x: int, p: int): int
    requires p >= 1
  {
    x / p * p
  }

  /** The scheduling points of level k up to the instant b: b itself, then for each server above
      the points of the levels over it up to b and up to its last release before b. */
  ghost function PointSet(T: seq<int>, k: nat, b: int): set<int>
    requires Periods(T) && k <= |T|
  {
    if b <= 0 then {}
    else if k == 0 then {b}
    else PointSet(T, k - 1, b) + PointSet(T, k - 1, FloorTo(b, T[k - 1]))
  }

  lemma FloorToBounds(x: int, p: int)
    requires p >= 1
    ensures FloorTo(x, p) <= x < FloorTo(x, p) + p
    ensures 0 <= x ==> 0 <= FloorTo(x, p)
  {}

  lemma {:induction false} PointsInWindow(T: seq<int>, k: nat, b: int)
    requires Periods(T) && k <= |T|
    ensures forall p :: p in PointSet(T, k, b) ==> 0 < p <= b
    ensures 0 < b ==> b in PointSet(T, k, b)
  {
    if 0 < b && 0 < k {
      FloorToBounds(b, T[k - 1]);
      PointsInWindow(T, k - 1, b);
      PointsInWindow(T, k - 1, FloorTo(b, T[k - 1]));
    }
  }

  // ------------------------------------------------------------------ nothing is lost

  /** The time the servers above level k leave free up to t. */
  ghost function Slack(T: seq<int>, C: seq<int>, k: nat, t: int): int
    requires ServerSet(T, C) && k <= |T|
  {
    t - Interference(T, C, k, t)
  }

  /** Some scheduling point, or the origin, offers at least the slack of `t`. */
  ghost predicate Dominated(T: seq<int>, C: seq<int>, k: nat, b: int, t: int)
    requires ServerSet(T, C) && k <= |T|
  {
    exists p :: (p == 0 || p in PointSet(T, k, b)) && Slack(T, C, k, p) >= Slack(T, C, k, t)
  }

  /** Repeating m times a stretch s in which server k fits adds m budgets of slack. */
  lemma {:induction false} SlackOfRepeats(T: seq<int>, C: seq<int>, k: nat, t: int, s: int, m: nat)
    requires ServerSet(T, C) && AtLeast(C, 0) && k < |T|
    requires MetAt(T, C, k, s)
    ensures Slack(T, C, k, t + m * s) >= Slack(T, C, k, t) + m * C[k]
  {
    if m > 0 {
      var u := t + (m - 1) * s;
      SlackOfRepeats(T, C, k, t, s, m - 1);
      OneMore(m, s);
      OneMore(m, C[k]);
      SlackOfOneMore(T, C, k, u, s);
    }
  }

  lemma OneMore(m: int, x: int)
    ensures m * x == (m - 1) * x + x
  {}

  lemma SlackOfOneMore(T: seq<int>, C: seq<int>, k: nat, u: int, s: int)
    requires ServerSet(T, C) && AtLeast(C, 0) && k < |T| && MetAt(T, C, k, s)
    ensures Slack(T, C, k, u + s) >= Slack(T, C, k, u) + C[k]
  {
    InterferenceSubadditive(T, C, k, u, s);
  }

  /** A point dominating at level k dominates at level k + 1 if server k asks for no more there. */
  lemma LiftDomination(T: seq<int>, C: seq<int>, k: nat, p: int, t: int, extra: nat, m: int)
    requires ServerSet(T, C) && AtLeast(C, 0) && k < |T|
    requires Slack(T, C, k, p) >= Slack(T, C, k, t) + extra * C[k]
    requires CeilDiv(p, T[k]) <= m && m <= CeilDiv(t, T[k]) + extra
    ensures Slack(T, C, k + 1, p) >= Slack(T, C, k + 1, t)
  {
    MulSubadditive(CeilDiv(t, T[k]), extra, CeilDiv(p, T[k]), C[k]);
  }

  lemma CeilWithin(p: int, T: int, m: int)
    requires T >= 1 && p <= m * T
    ensures CeilDiv(p, T) <= m
  {
    CeilMonotone(p, m * T, T);
    assert (m - 1) * T == m * T - T;
    CeilIs(m * T, T, m);
  }

  /** Bini and Buttazzo's reduction: if the servers above level k are schedulable, every instant
      up to b is dominated by a scheduling point. */
  lemma {:induction false} PointsDominate(T: seq<int>, C: seq<int>, k: nat, b: int, t: int)
    requires ServerSet(T, C) && AtLeast(C, 0) && k <= |T|
    requires forall j :: 0 <= j < k ==> Schedulable(T, C, j)
    requires 0 <= t <= b
    ensures Dominated(T, C, k, b, t)
    decreases k, 0
  {
    if t == 0 {
      assert Slack(T, C, k, 0) >= Slack(T, C, k, t);
    } else if k == 0 {
      assert b in PointSet(T, 0, b);
    } else {
      var last := FloorTo(b, T[k - 1]);
      FloorToBounds(b, T[k - 1]);
      if last < t {
        DominateLate(T, C, k - 1, b, t);
      } else {
        DominateEarly(T, C, k - 1, b, t);
      }
    }
  }

  lemma LateCeil(b: int, t: int, p: int)
    requires p >= 1 && FloorTo(b, p) < t <= b
    ensures CeilDiv(t, p) == b / p + 1
  {
    FloorToBounds(b, p);
    assert (b / p + 1) * p == b / p * p + p;
    CeilIs(t, p, b / p + 1);
  }

  /** The instants after server k's last release before b. */
  lemma {:induction false} DominateLate(T: seq<int>, C: seq<int>, k: nat, b: int, t: int)
    requires ServerSet(T, C) && AtLeast(C, 0) && k < |T|
    requires forall j :: 0 <= j <= k ==> Schedulable(T, C, j)
    requires 0 < t <= b && FloorTo(b, T[k]) < t
    ensures Dominated(T, C, k + 1, b, t)
    decreases k, 1
  {
    var n := b / T[k];
    PointsDominate(T, C, k, b, t);
    var p :| (p == 0 || p in PointSet(T, k, b)) && Slack(T, C, k, p) >= Slack(T, C, k, t);
    PointsInWindow(T, k, b);
    LateCeil(b, t, T[k]);
    CeilMonotone(p, b, T[k]);
    LateCeil(b, b, T[k]);
    LiftDomination(T, C, k, p, t, 0, n + 1);
    assert p == 0 || p in PointSet(T, k + 1, b);
  }

  lemma MoveForward(t: int, q: int, n: int, s: int, p: int)
    requires q <= n && t <= q * p && 0 <= s <= p
    ensures t <= t + (n - q) * s <= n * p
  {
    MulMonotone(0, s, n - q);
    MulMonotone(s, p, n - q);
    assert (n - q) * p == n * p - q * p;
  }

  /** The instants up to it: move t forward by whole stretches in which server k fits. */
  lemma {:induction false} DominateEarly(T: seq<int>, C: seq<int>, k: nat, b: int, t: int)
    requires ServerSet(T, C) && AtLeast(C, 0) && k < |T|
    requires forall j :: 0 <= j <= k ==> Schedulable(T, C, j)
    requires 0 < t <= FloorTo(b, T[k]) && 0 < b
    ensures Dominated(T, C, k + 1, b, t)
    decreases k, 1
  {
    var n, q := b / T[k], CeilDiv(t, T[k]);
    var last := n * T[k];
    FloorToBounds(b, T[k]);
    CeilBounds(t, T[k]);
    CeilWithin(t, T[k], n);
    assert Schedulable(T, C, k);
    var s :| 0 <= s <= T[k] && MetAt(T, C, k, s);
    var u := t + (n - q) * s;
    MoveForward(t, q, n, s, T[k]);
    SlackOfRepeats(T, C, k, t, s, n - q);
    PointsDominate(T, C, k, last, u);
    var p :| (p == 0 || p in PointSet(T, k, last)) && Slack(T, C, k, p) >= Slack(T, C, k, u);
    PointsInWindow(T, k, last);
    CeilWithin(p, T[k], n);
    LiftDomination(T, C, k, p, t, n - q, n);
    assert p == 0 || p in PointSet(T, k + 1, b);
  }

  ghost predicate PassesAtPoint(T: seq<int>, C: seq<int>, i: nat)
    requires ServerSet(T, C) && i < |T|
  {
    exists p :: p in PointSet(T, i, T[i]) && MetAt(T, C, i, p)
  }

  ghost predicate AllPassAtPoints(T: seq<int>, C: seq<int>)
    requires ServerSet(T, C)
  {
    forall i :: 0 <= i < |T| ==> PassesAtPoint(T, C, i)
  }

  lemma PassingIsSchedulable(T: seq<int>, C: seq<int>, i: nat)
    requires ServerSet(T, C) && i < |T| && PassesAtPoint(T, C, i)
    ensures Schedulable(T, C, i)
  {
    PointsInWindow(T, i, T[i]);
  }

  /** For a server below schedulable ones, the points decide. */
  lemma SchedulableIsPassing(T: seq<int>, C: seq<int>, i: nat)
    requires ServerSet(T, C) && AtLeast(C, 1) && i < |T|
    requires forall j :: 0 <= j <= i ==> Schedulable(T, C, j)
    ensures PassesAtPoint(T, C, i)
  {
    assert Schedulable(T, C, i);
    var t :| 0 <= t <= T[i] && MetAt(T, C, i, t);
    PointsDominate(T, C, i, T[i], t);
    var p :| (p == 0 || p in PointSet(T, i, T[i])) && Slack(T, C, i, p) >= Slack(T, C, i, t);
    InterferenceAtZero(T, C, i);
    assert Slack(T, C, i, p) >= C[i] >= 1;
    assert MetAt(T, C, i, p);
  }

  /** All servers pass at some scheduling point exactly when all pass somewhere in (0, T[i]]. */
  lemma ReducedPointsExact(T: seq<int>, C: seq<int>)
    requires ServerSet(T, C) && AtLeast(C, 1)
    ensures AllPassAtPoints(T, C) <==> AllSchedulable(T, C)
    ensures AllPassAtPoints(T, C) <==>
              forall i :: 0 <= i < |T| ==> MetInWindow(T, C, i)
  {
    if AllPassAtPoints(T, C) {
      forall i | 0 <= i < |T| ensures Schedulable(T, C, i) {
        PassingIsSchedulable(T, C, i);
      }
    }
    if AllSchedulable(T, C) {
      forall i | 0 <= i < |T| ensures PassesAtPoint(T, C, i) {
        SchedulableIsPassing(T, C, i);
      }
    }
    forall i | 0 <= i < |T| ensures Schedulable(T, C, i) <==> MetInWindow(T, C, i) {
      PositiveInstant(T, C, i);
    }
  }

  // ------------------------------------------------------------------ computing the points

  ghost predicate Ascending(s: seq<int>)
  {
    forall i, j :: 0 <= i < j < |s| ==> s[i] <= s[j]
  }

  ghost predicate StrictlyAscending(s: seq<int>)
  {
    forall i, j :: 0 <= i < j < |s| ==> s[i] < s[j]
  }

  lemma InsertAt(s: seq<int>, h: nat, x: int)
    requires Ascending(s) && h <= |s|
    requires forall j :: 0 <= j < h ==> s[j] <= x
    requires forall j :: h <= j < |s| ==> x <= s[j]
    ensures Ascending(s[..h] + [x] + s[h..])
    ensures multiset(s[..h] + [x] + s[h..]) == multiset(s) + multiset{x}
  {
    assert s == s[..h] + s[h..];
  }

  /** Stands for the library sort. */
  method Sort(s: seq<int>) returns (r: seq<int>)
    ensures Ascending(r) && multiset(r) == multiset(s)
  {
    r := [];
    for i := 0 to |s|
      invariant Ascending(r) && multiset(r) == multiset(s[..i])
    {
      var h := |r|;
      while h > 0 && r[h - 1] > s[i]
        invariant 0 <= h <= |r|
        invariant forall j :: h <= j < |r| ==> s[i] <= r[j]
      {
        h := h - 1;
      }
      InsertAt(r, h, s[i]);
      r := r[..h] + [s[i]] + r[h..];
      assert s[..i + 1] == s[..i] + [s[i]];
    }
    assert s[..|s|] == s;
  }

  /** p is a level-k point of one of the instants in xs. */
  ghost predicate Covered(T: seq<int>, k: nat, xs: seq<int>, p: int)
    requires Periods(T) && k <= |T|
  {
    exists x :: x in xs && p in PointSet(T, k, x)
  }

  lemma PointSetStep(T: seq<int>, k: nat, x: int)
    requires Periods(T) && k < |T| && x > 0
    ensures PointSet(T, k + 1, x) == PointSet(T, k, x) + PointSet(T, k, FloorTo(x, T[k]))
  {}

  /** y is the last release of server k up to one of the instants in xs. */
  ghost predicate IsRelease(T: seq<int>, k: nat, xs: seq<int>, y: int)
    requires Periods(T) && k < |T|
  {
    y > 0 && exists x :: x in xs && y == FloorTo(x, T[k])
  }

  lemma ReleasesGrow(T: seq<int>, k: nat, xs: seq<int>, j: nat)
    requires Periods(T) && k < |T| && j < |xs|
    ensures forall y :: IsRelease(T, k, xs[..j + 1], y) <==>
                          IsRelease(T, k, xs[..j], y) || (y > 0 && y == FloorTo(xs[j], T[k]))
  {
    assert xs[..j + 1] == xs[..j] + [xs[j]];
    forall y ensures IsRelease(T, k, xs[..j + 1], y) <==>
                       IsRelease(T, k, xs[..j], y) || (y > 0 && y == FloorTo(xs[j], T[k]))
    {
      if y > 0 && y == FloorTo(xs[j], T[k]) {
        assert xs[j] in xs[..j + 1];
      }
    }
  }

  /** Adding the last releases of server k moves the covered points one level up. */
  lemma CoveredStep(T: seq<int>, k: nat, xs: seq<int>, aux: seq<int>, p: int)
    requires Periods(T) && k < |T|
    requires forall x :: x in xs ==> x > 0
    requires forall y :: y in aux <==> IsRelease(T, k, xs, y)
    ensures Covered(T, k + 1, xs, p) <==> Covered(T, k, xs + aux, p)
  {
    if Covered(T, k + 1, xs, p) {
      var x :| x in xs && p in PointSet(T, k + 1, x);
      PointSetStep(T, k, x);
      var y := if p in PointSet(T, k, x) then x else FloorTo(x, T[k]);
      assert y == x || IsRelease(T, k, xs, y);
      assert y in xs + aux && p in PointSet(T, k, y);
    }
    if Covered(T, k, xs + aux, p) {
      var y :| y in xs + aux && p in PointSet(T, k, y);
      if y in xs {
        PointSetStep(T, k, y);
      } else {
        assert IsRelease(T, k, xs, y);
        var x :| x in xs && y == FloorTo(x, T[k]);
        PointSetStep(T, k, x);
        assert p in PointSet(T, k + 1, x);
      }
    }
  }

  /** The scheduling points of a server, in increasing order and without repetition. */
  method SetP(D: int, period: seq<int>, task: nat) returns (points: seq<int>)
    requires Periods(period) && task <= |period| && D >= 1
    ensures StrictlyAscending(points)
    ensures forall p :: p in points <==> p in PointSet(period, task, D)
  {
    var schp := [D];
    var i := task;
    assert forall p :: Covered(period, task, schp, p) <==> p in PointSet(period, task, D) by {
      assert D in schp;
    }
    while i > 0
      invariant 0 <= i <= task && |schp| > 0
      invariant forall x :: x in schp ==> x > 0
      invariant forall p :: p in PointSet(period, task, D) <==> Covered(period, i, schp, p)
    {
      i := i - 1;
      var aux := [];
      for j := 0 to |schp|
        invariant forall y :: y in aux <==> IsRelease(period, i, schp[..j], y)
      {
        var p := FloorTo(schp[j], period[i]);
        ReleasesGrow(period, i, schp, j);
        if p > 0 {
          aux := aux + [p];
        }
      }
      assert schp[..|schp|] == schp;
      forall p ensures Covered(period, i + 1, schp, p) <==> Covered(period, i, schp + aux, p) {
        CoveredStep(period, i, schp, aux, p);
      }
      schp := schp + aux;
    }
    forall p ensures p in schp <==> Covered(period, 0, schp, p) {}
    var sorted := Sort(schp);
    assert forall x :: x in sorted <==> x in multiset(schp);
    assert |sorted| == |multiset(schp)|;
    points := WithoutRepetition(sorted);
  }

  /** Drops the elements equal to their predecessor. */
  method WithoutRepetition(s: seq<int>) returns (r: seq<int>)
    requires |s| > 0 && Ascending(s)
    ensures StrictlyAscending(r) && forall x :: x in r <==> x in s
  {
    r := [s[0]];
    for h := 1 to |s|
      invariant StrictlyAscending(r) && |r| > 0 && r[|r| - 1] == s[h - 1]
      invariant forall x :: x in r <==> x in s[..h]
    {
      assert s[..h + 1] == s[..h] + [s[h]];
      if s[h] != s[h - 1] {
        r := r + [s[h]];
      }
    }
    assert s[..|s|] == s;
  }
}
