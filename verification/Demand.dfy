/** The specification both fixed-priority admission supervisors answer.

    Servers are indexed by decreasing priority; server j has a budget Q[j] and a period P[j].
    Server i is schedulable when its level-i demand, its own budget plus what all
    higher-priority servers may ask for, is met at some instant of its first period. */
module Demand {

  /** The number of activations of a server of period `p` in an interval of length `t`. */
  function CeilDiv(t: int, p: int): int
    requires p >= 1
  {
    (t + p - 1) / p
  }

  ghost predicate Periods(P: seq<int>)
  {
    forall j :: 0 <= j < |P| ==> P[j] >= 1
  }

  ghost predicate AtLeast(Q: seq<int>, low: int)
  {
    forall j :: 0 <= j < |Q| ==> Q[j] >= low
  }

  /** A server set: as many budgets as periods, every period positive. */
  ghost predicate ServerSet(P: seq<int>, Q: seq<int>)
  {
    |P| == |Q| && Periods(P)
  }

  /** The work servers 0..k-1 may ask for in an interval of length `t`. */
  ghost function Interference(P: seq<int>, Q: seq<int>, k: nat, t: int): int
    requires ServerSet(P, Q) && k <= |P|
  {
    if k == 0 then 0 else Interference(P, Q, k - 1, t) + CeilDiv(t, P[k - 1]) * Q[k - 1]
  }

  ghost function LevelDemand(P: seq<int>, Q: seq<int>, i: nat, t: int): int
    requires ServerSet(P, Q) && i < |P|
  {
    Q[i] + Interference(P, Q, i, t)
  }

  ghost predicate MetAt(P: seq<int>, Q: seq<int>, i: nat, t: int)
    requires ServerSet(P, Q) && i < |P|
  {
    LevelDemand(P, Q, i, t) <= t
  }

  /** Server i meets its demand somewhere in its first period. The instant 0 never
      qualifies when the budget is positive; see PositiveInstant. */
  ghost predicate Schedulable(P: seq<int>, Q: seq<int>, i: nat)
    requires ServerSet(P, Q) && i < |P|
  {
    exists t :: 0 <= t <= P[i] && MetAt(P, Q, i, t)
  }

  /** The same with the origin left out. */
  ghost predicate MetInWindow(P: seq<int>, Q: seq<int>, i: nat)
    requires ServerSet(P, Q) && i < |P|
  {
    exists t :: 0 < t <= P[i] && MetAt(P, Q, i, t)
  }

  /** Servers lo..n-1 are schedulable. */
  ghost predicate SchedulableFrom(P: seq<int>, Q: seq<int>, lo: nat)
    requires ServerSet(P, Q)
  {
    forall i :: lo <= i < |P| ==> Schedulable(P, Q, i)
  }

  ghost predicate AllSchedulable(P: seq<int>, Q: seq<int>)
    requires ServerSet(P, Q)
  {
    SchedulableFrom(P, Q, 0)
  }

  /** The set stays schedulable when server k's budget becomes `b`. */
  ghost predicate Admits(P: seq<int>, Q: seq<int>, k: nat, b: int)
    requires ServerSet(P, Q) && k < |P|
  {
    AllSchedulable(P, Q[k := b])
  }

  // ------------------------------------------------------------------ arithmetic

  lemma MulMonotone(a: int, b: int, c: int)
    requires a <= b && 0 <= c
    ensures a * c <= b * c
  {}

  lemma MulSubadditive(a: int, b: int, c: int, q: int)
    requires c <= a + b && 0 <= q
    ensures c * q <= a * q + b * q
  {
    MulMonotone(c, a + b, q);
  }

  lemma DivBounds(a: int, p: int)
    requires p >= 1
    ensures (a / p) * p <= a < (a / p) * p + p
  {}

  /** `(q - 1) * p < t <= q * p` characterises the ceiling. */
  lemma CeilIs(t: int, p: int, q: int)
    requires p >= 1
    requires (q - 1) * p < t <= q * p
    ensures CeilDiv(t, p) == q
  {
    var c := CeilDiv(t, p);
    DivBounds(t + p - 1, p);
    assert (c - 1) * p == c * p - p;
    if c < q {
      MulMonotone(c, q - 1, p);
    } else if c > q {
      MulMonotone(q, c - 1, p);
    }
  }

  lemma CeilBounds(t: int, p: int)
    requires p >= 1
    ensures (CeilDiv(t, p) - 1) * p < t <= CeilDiv(t, p) * p
  {
    var c := CeilDiv(t, p);
    DivBounds(t + p - 1, p);
    assert (c - 1) * p == c * p - p;
  }

  lemma CeilMonotone(t: int, u: int, p: int)
    requires p >= 1 && t <= u
    ensures CeilDiv(t, p) <= CeilDiv(u, p)
  {
    var c, d := CeilDiv(t, p), CeilDiv(u, p);
    CeilBounds(t, p);
    CeilBounds(u, p);
    if d < c {
      MulMonotone(d, c - 1, p);
    }
  }

  lemma CeilSubadditive(t: int, u: int, p: int)
    requires p >= 1
    ensures CeilDiv(t + u, p) <= CeilDiv(t, p) + CeilDiv(u, p)
  {
    var c, d, e := CeilDiv(t, p), CeilDiv(u, p), CeilDiv(t + u, p);
    CeilBounds(t, p);
    CeilBounds(u, p);
    CeilBounds(t + u, p);
    assert (c + d) * p == c * p + d * p;
    if c + d < e {
      MulMonotone(c + d, e - 1, p);
    }
  }

  lemma {:induction false} InterferenceNonNegative(P: seq<int>, Q: seq<int>, k: nat, t: int)
    requires ServerSet(P, Q) && AtLeast(Q, 0) && k <= |P| && 0 <= t
    ensures 0 <= Interference(P, Q, k, t)
  {
    InterferenceAtZero(P, Q, k);
    InterferenceMonotone(P, Q, k, 0, t);
  }

  // ------------------------------------------------------------------ the demand function

  lemma {:induction false} InterferenceMonotone(P: seq<int>, Q: seq<int>, k: nat, t: int, u: int)
    requires ServerSet(P, Q) && AtLeast(Q, 0) && k <= |P| && t <= u
    ensures Interference(P, Q, k, t) <= Interference(P, Q, k, u)
  {
    if k > 0 {
      InterferenceMonotone(P, Q, k - 1, t, u);
      CeilMonotone(t, u, P[k - 1]);
      MulMonotone(CeilDiv(t, P[k - 1]), CeilDiv(u, P[k - 1]), Q[k - 1]);
    }
  }

  lemma {:induction false} InterferenceAtZero(P: seq<int>, Q: seq<int>, k: nat)
    requires ServerSet(P, Q) && k <= |P|
    ensures Interference(P, Q, k, 0) == 0
  {
    if k > 0 {
      InterferenceAtZero(P, Q, k - 1);
      CeilIs(0, P[k - 1], 0);
    }
  }

  lemma {:induction false} InterferenceSubadditive(P: seq<int>, Q: seq<int>, k: nat, t: int, u: int)
    requires ServerSet(P, Q) && AtLeast(Q, 0) && k <= |P|
    ensures Interference(P, Q, k, t + u) <= Interference(P, Q, k, t) + Interference(P, Q, k, u)
  {
    if k > 0 {
      InterferenceSubadditive(P, Q, k - 1, t, u);
      var c, d := CeilDiv(t, P[k - 1]), CeilDiv(u, P[k - 1]);
      CeilSubadditive(t, u, P[k - 1]);
      MulSubadditive(c, d, CeilDiv(t + u, P[k - 1]), Q[k - 1]);
    }
  }

  /** Smaller budgets ask for no more. */
  lemma {:induction false} InterferenceAntitone(P: seq<int>, Q: seq<int>, Q': seq<int>, k: nat, t: int)
    requires ServerSet(P, Q) && ServerSet(P, Q') && k <= |P| && 0 <= t
    requires forall j :: 0 <= j < k ==> Q[j] <= Q'[j]
    ensures Interference(P, Q, k, t) <= Interference(P, Q', k, t)
  {
    if k > 0 {
      InterferenceAntitone(P, Q, Q', k - 1, t);
      CeilIs(0, P[k - 1], 0);
      CeilMonotone(0, t, P[k - 1]);
      MulMonotone(Q[k - 1], Q'[k - 1], CeilDiv(t, P[k - 1]));
    }
  }

  lemma {:induction false} InterferencePrefix(P: seq<int>, Q: seq<int>, Q': seq<int>, k: nat, t: int)
    requires ServerSet(P, Q) && ServerSet(P, Q') && k <= |P|
    requires Q[..k] == Q'[..k]
    ensures Interference(P, Q, k, t) == Interference(P, Q', k, t)
  {
    if k > 0 {
      assert Q[..k][..k - 1] == Q[..k - 1] && Q'[..k][..k - 1] == Q'[..k - 1];
      assert Q[..k][k - 1] == Q[k - 1] && Q'[..k][k - 1] == Q'[k - 1];
      InterferencePrefix(P, Q, Q', k - 1, t);
    }
  }

  /** With a positive budget the instant that meets the demand is positive. */
  lemma PositiveInstant(P: seq<int>, Q: seq<int>, i: nat)
    requires ServerSet(P, Q) && i < |P| && Q[i] >= 1
    ensures Schedulable(P, Q, i) <==> MetInWindow(P, Q, i)
  {
    InterferenceAtZero(P, Q, i);
    assert !MetAt(P, Q, i, 0);
  }

  /** A schedulable server's budget fits in its period. */
  lemma BudgetWithinPeriod(P: seq<int>, Q: seq<int>, i: nat)
    requires ServerSet(P, Q) && i < |P| && Schedulable(P, Q, i)
    requires forall j :: 0 <= j < i ==> Q[j] >= 0
    ensures Q[i] <= P[i]
  {
    var t :| 0 <= t <= P[i] && MetAt(P, Q, i, t);
    var low := seq(|Q|, j requires 0 <= j < |Q| => if j < i then Q[j] else 0);
    InterferenceNonNegative(P, low, i, t);
    InterferencePrefix(P, low, Q, i, t);
  }

  /** Lowering budgets never costs a server its schedulability. */
  lemma SchedulableAntitone(P: seq<int>, Q: seq<int>, Q': seq<int>, i: nat)
    requires ServerSet(P, Q) && ServerSet(P, Q') && i < |P|
    requires forall j :: 0 <= j <= i ==> Q[j] <= Q'[j]
    ensures Schedulable(P, Q', i) ==> Schedulable(P, Q, i)
  {
    if Schedulable(P, Q', i) {
      var t :| 0 <= t <= P[i] && MetAt(P, Q', i, t);
      InterferenceAntitone(P, Q, Q', i, t);
      assert MetAt(P, Q, i, t);
    }
  }

  /** A change of server k's budget is invisible to the servers above it. */
  lemma HigherServersUnaffected(P: seq<int>, Q: seq<int>, k: nat, b: int, i: nat)
    requires ServerSet(P, Q) && i < k < |P|
    ensures Schedulable(P, Q[k := b], i) <==> Schedulable(P, Q, i)
  {
    var Q' := Q[k := b];
    assert Q[..i] == Q'[..i];
    forall t ensures MetAt(P, Q', i, t) == MetAt(P, Q, i, t) {
      InterferencePrefix(P, Q, Q', i, t);
    }
  }

  lemma AdmitsBySuffix(P: seq<int>, Q: seq<int>, k: nat, b: int)
    requires ServerSet(P, Q) && k < |P| && AllSchedulable(P, Q)
    ensures SchedulableFrom(P, Q[k := b], k) <==> Admits(P, Q, k, b)
  {
    var Q' := Q[k := b];
    forall i: nat | i < k ensures Schedulable(P, Q', i) {
      HigherServersUnaffected(P, Q, k, b, i);
    }
  }

  lemma FromAntitone(P: seq<int>, Q: seq<int>, k: nat, b: int, c: int, lo: nat)
    requires ServerSet(P, Q) && k < |P| && b <= c
    ensures SchedulableFrom(P, Q[k := c], lo) ==> SchedulableFrom(P, Q[k := b], lo)
  {
    var low, high := Q[k := b], Q[k := c];
    if SchedulableFrom(P, high, lo) {
      forall i | lo <= i < |P| ensures Schedulable(P, low, i) {
        SchedulableAntitone(P, low, high, i);
      }
    }
  }

  lemma AdmitsAntitone(P: seq<int>, Q: seq<int>, k: nat, b: int, c: int)
    requires ServerSet(P, Q) && k < |P| && b <= c && Admits(P, Q, k, c)
    ensures Admits(P, Q, k, b)
  {
    FromAntitone(P, Q, k, b, c, 0);
  }

  lemma AdmitsCurrent(P: seq<int>, Q: seq<int>, k: nat)
    requires ServerSet(P, Q) && k < |P| && AllSchedulable(P, Q)
    ensures Admits(P, Q, k, Q[k])
  {
    assert Q[k := Q[k]] == Q;
  }

  // ------------------------------------------------------------------ what an admission test may grant

  /** The answer the supervisors owe a request to change server k's budget by `db`: a decrease
      is granted as it is, of an increase the largest part that keeps every server schedulable. */
  ghost function Granted(P: seq<int>, Q: seq<int>, k: nat, db: int): (d: int)
    requires ServerSet(P, Q) && k < |P|
    ensures db <= 0 ==> d == db
    ensures db > 0 ==> 0 <= d <= db
    decreases if db > 0 then db else 0
  {
    if db <= 0 || Admits(P, Q, k, Q[k] + db) then db else Granted(P, Q, k, db - 1)
  }

  /** From a schedulable set, the grant keeps the set schedulable and no larger one does. */
  lemma {:induction false} GrantedIsLargest(P: seq<int>, Q: seq<int>, k: nat, db: int)
    requires ServerSet(P, Q) && k < |P| && AllSchedulable(P, Q)
    ensures Admits(P, Q, k, Q[k] + Granted(P, Q, k, db))
    ensures forall b :: Q[k] + Granted(P, Q, k, db) < b <= Q[k] + db ==> !Admits(P, Q, k, b)
    decreases if db > 0 then db else 0
  {
    if db <= 0 {
      AdmitsCurrent(P, Q, k);
      AdmitsAntitone(P, Q, k, Q[k] + db, Q[k]);
    } else if !Admits(P, Q, k, Q[k] + db) {
      GrantedIsLargest(P, Q, k, db - 1);
    }
  }

  /** Two tests pin the grant, one at it and one just above it. */
  lemma {:induction false} GrantedByTests(P: seq<int>, Q: seq<int>, k: nat, db: int, d: int)
    requires ServerSet(P, Q) && k < |P| && 0 <= d <= db
    requires Admits(P, Q, k, Q[k] + d)
    requires d == db || !Admits(P, Q, k, Q[k] + d + 1)
    ensures Granted(P, Q, k, db) == d
    decreases db
  {
    if d < db {
      if Admits(P, Q, k, Q[k] + db) {
        AdmitsAntitone(P, Q, k, Q[k] + d + 1, Q[k] + db);
        assert false;
      }
      GrantedByTests(P, Q, k, db - 1, d);
    }
  }
}
