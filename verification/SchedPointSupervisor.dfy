/** The admission supervisor that turns the scheduling points into linear constraints on the
    utilisations, and finds the largest increase of one utilisation in closed form. */
module SchedPointSupervisor {
  import opened Demand
  import opened SchedulingPoints

  type Row = seq<real>
  type Matrix = seq<Row>

  // ------------------------------------------------------------------ the linear constraints

  /** What server col weighs in server i's demand at the instant t, per unit of its utilisation. */
  ghost function Weight(P: seq<int>, i: nat, t: int, col: nat): int
    requires Periods(P) && i < |P| && col < |P|
  {
    if col < i then CeilDiv(t, P[col]) * P[col] else if col == i then P[i] else 0
  }

  /** The weight relative to the instant t. */
  ghost predicate IsEntry(x: real, P: seq<int>, i: nat, t: int, col: nat)
    requires Periods(P) && i < |P| && col < |P|
  {
    x * t as real == Weight(P, i, t, col) as real
  }

  ghost predicate IsRow(row: Row, P: seq<int>, i: nat, t: int)
    requires Periods(P) && i < |P|
  {
    |row| == |P| && forall col :: 0 <= col < |P| ==> IsEntry(row[col], P, i, t, col)
  }

  /** One row for each scheduling point of server i. */
  ghost predicate IsMatrix(m: Matrix, points: seq<int>, P: seq<int>, i: nat)
    requires Periods(P) && i < |P|
  {
    && |m| == |points|
    && (forall p :: p in points <==> p in PointSet(P, i, P[i]))
    && forall r :: 0 <= r < |m| ==> points[r] > 0 && IsRow(m[r], P, i, points[r])
  }

  ghost predicate IsConstraints(ms: seq<Matrix>, points: seq<seq<int>>, P: seq<int>)
    requires Periods(P)
  {
    |ms| == |points| == |P| && forall i :: 0 <= i < |P| ==> IsMatrix(ms[i], points[i], P, i)
  }

  ghost predicate IsUtilisation(u: real, p: int, q: int)
  {
    u * p as real == q as real
  }

  ghost predicate AreUtilisations(U: seq<real>, P: seq<int>, Q: seq<int>)
    requires ServerSet(P, Q)
  {
    |U| == |P| && forall j :: 0 <= j < |P| ==> IsUtilisation(U[j], P[j], Q[j])
  }

  /** The product of the first k columns of a row with the utilisations. */
  ghost function Dot(row: Row, U: seq<real>, k: nat): real
    requires k <= |row| && k <= |U|
  {
    if k == 0 then 0.0 else Dot(row, U, k - 1) + row[k - 1] * U[k - 1]
  }

  ghost predicate RowHolds(row: Row, U: seq<real>)
    requires |row| == |U|
  {
    Dot(row, U, |U|) <= 1.0
  }

  ghost predicate Widths(m: Matrix, n: nat)
  {
    forall r :: 0 <= r < |m| ==> |m[r]| == n
  }

  ghost predicate MatrixHolds(m: Matrix, U: seq<real>)
    requires Widths(m, |U|)
  {
    exists r :: 0 <= r < |m| && RowHolds(m[r], U)
  }

  ghost predicate AllWidths(ms: seq<Matrix>, n: nat)
  {
    forall i :: 0 <= i < |ms| ==> Widths(ms[i], n)
  }

  ghost predicate ConstraintsHold(ms: seq<Matrix>, U: seq<real>)
    requires AllWidths(ms, |U|)
  {
    forall i :: 0 <= i < |ms| ==> MatrixHolds(ms[i], U)
  }

  // ------------------------------------------------------------------ rows are demand tests

  /** d is the work w relative to the instant t. */
  ghost predicate IsWork(d: real, t: real, w: int)
  {
    d * t == w as real
  }

  /** Adding a column that weighs c periods adds c budgets of work. */
  lemma DotStep(row: Row, U: seq<real>, j: nat, t: real, s: int, c: int, p: int, q: int)
    requires j < |row| && j < |U| && IsWork(Dot(row, U, j), t, s)
    requires row[j] * t == (c * p) as real && IsUtilisation(U[j], p, q)
    ensures IsWork(Dot(row, U, j + 1), t, s + c * q)
  {
    TermIsWork(Dot(row, U, j), row[j], U[j], t, s, c, p, q);
  }

  lemma TermIsWork(d: real, x: real, u: real, t: real, s: int, c: int, p: int, q: int)
    requires d * t == s as real && x * t == (c * p) as real && u * p as real == q as real
    ensures (d + x * u) * t == (s + c * q) as real
  {
    RealProduct(c, p);
    RealProduct(c, q);
    assert x * u * t == (x * t) * u;
    assert (c as real * p as real) * u == c as real * (u * p as real);
    Distribute(d, x * u, t);
  }

  lemma {:induction false} DotIsInterference(row: Row, U: seq<real>, P: seq<int>, Q: seq<int>, i: nat, t: int, k: nat)
    requires ServerSet(P, Q) && k <= i < |P|
    requires IsRow(row, P, i, t) && AreUtilisations(U, P, Q)
    ensures IsWork(Dot(row, U, k), t as real, Interference(P, Q, k, t))
  {
    if k > 0 {
      var j := k - 1;
      DotIsInterference(row, U, P, Q, i, t, j);
      assert IsEntry(row[j], P, i, t, j);
      DotStep(row, U, j, t as real, Interference(P, Q, j, t), CeilDiv(t, P[j]), P[j], Q[j]);
    }
  }

  lemma RealProduct(a: int, b: int)
    ensures (a * b) as real == a as real * b as real
  {}

  lemma Distribute(a: real, b: real, t: real)
    ensures (a + b) * t == a * t + b * t
  {}

  lemma {:induction false} DotOfZeros(row: Row, U: seq<real>, lo: nat, hi: nat)
    requires |row| == |U| && lo <= hi <= |U|
    requires forall j :: lo <= j < hi ==> row[j] == 0.0
    ensures Dot(row, U, hi) == Dot(row, U, lo)
  {
    if lo < hi {
      DotOfZeros(row, U, lo, hi - 1);
    }
  }

  lemma ZerosBelow(row: Row, P: seq<int>, i: nat, t: int)
    requires Periods(P) && i < |P| && t > 0 && IsRow(row, P, i, t)
    ensures forall j :: i < j < |row| ==> row[j] == 0.0
  {
    forall j | i < j < |row| ensures row[j] == 0.0 {
      assert IsEntry(row[j], P, i, t, j);
    }
  }

  lemma DotIsDemand(row: Row, U: seq<real>, P: seq<int>, Q: seq<int>, i: nat, t: int)
    requires ServerSet(P, Q) && i < |P| && t > 0
    requires IsRow(row, P, i, t) && AreUtilisations(U, P, Q)
    ensures IsWork(Dot(row, U, |U|), t as real, LevelDemand(P, Q, i, t))
  {
    hide IsWork, Dot, LevelDemand;
    ZerosBelow(row, P, i, t);
    DotOfZeros(row, U, i + 1, |U|);
    DotOfOwnTerm(row, U, P, Q, i, t);
  }

  lemma DotOfOwnTerm(row: Row, U: seq<real>, P: seq<int>, Q: seq<int>, i: nat, t: int)
    requires ServerSet(P, Q) && i < |P|
    requires IsRow(row, P, i, t) && AreUtilisations(U, P, Q)
    ensures IsWork(Dot(row, U, i + 1), t as real, LevelDemand(P, Q, i, t))
  {
    hide IsWork;
    DotIsInterference(row, U, P, Q, i, t, i);
    assert IsEntry(row[i], P, i, t, i);
    DotStep(row, U, i, t as real, Interference(P, Q, i, t), 1, P[i], Q[i]);
  }

  /** A row holds exactly when the demand is met at its scheduling point. */
  lemma RowIsDemandTest(row: Row, U: seq<real>, P: seq<int>, Q: seq<int>, i: nat, t: int)
    requires ServerSet(P, Q) && i < |P| && t > 0
    requires IsRow(row, P, i, t) && AreUtilisations(U, P, Q)
    ensures RowHolds(row, U) <==> MetAt(P, Q, i, t)
  {
    hide IsWork, Dot, LevelDemand;
    DotIsDemand(row, U, P, Q, i, t);
    WorkWithin(Dot(row, U, |U|), t, LevelDemand(P, Q, i, t));
  }

  lemma WorkWithin(d: real, t: int, w: int)
    requires t > 0 && IsWork(d, t as real, w)
    ensures d <= 1.0 <==> w <= t
  {
    ScaleCompare(d, 1.0, t as real);
  }

  lemma ScaleCompare(a: real, b: real, t: real)
    requires t > 0.0
    ensures a <= b <==> a * t <= b * t
  {}

  lemma ConstraintWidths(ms: seq<Matrix>, points: seq<seq<int>>, P: seq<int>)
    requires Periods(P) && IsConstraints(ms, points, P)
    ensures AllWidths(ms, |P|)
  {
    forall i | 0 <= i < |ms| ensures Widths(ms[i], |P|) {
      assert IsMatrix(ms[i], points[i], P, i);
    }
  }

  /** The linear constraints hold exactly when every server is schedulable. */
  lemma ConstraintsAreSchedulability(ms: seq<Matrix>, points: seq<seq<int>>, U: seq<real>, P: seq<int>, Q: seq<int>)
    requires ServerSet(P, Q) && AtLeast(Q, 1)
    requires IsConstraints(ms, points, P) && AreUtilisations(U, P, Q)
    ensures AllWidths(ms, |U|)
    ensures ConstraintsHold(ms, U) <==> AllSchedulable(P, Q)
  {
    ConstraintWidths(ms, points, P);
    forall i | 0 <= i < |P| ensures MatrixHolds(ms[i], U) <==> PassesAtPoint(P, Q, i) {
      assert IsMatrix(ms[i], points[i], P, i);
      if MatrixHolds(ms[i], U) {
        var r :| 0 <= r < |ms[i]| && RowHolds(ms[i][r], U);
        RowIsDemandTest(ms[i][r], U, P, Q, i, points[i][r]);
        assert points[i][r] in points[i];
      }
      if PassesAtPoint(P, Q, i) {
        var p :| p in PointSet(P, i, P[i]) && MetAt(P, Q, i, p);
        assert p in points[i];
        var r :| 0 <= r < |points[i]| && points[i][r] == p;
        RowIsDemandTest(ms[i][r], U, P, Q, i, p);
      }
    }
    ReducedPointsExact(P, Q);
  }

  // ------------------------------------------------------------------ raising one utilisation

  ghost function Raised(U: seq<real>, k: nat, delta: real): (U': seq<real>)
    requires k < |U|
    ensures |U'| == |U|
  {
    U[k := U[k] + delta]
  }

  ghost predicate RaiseHolds(ms: seq<Matrix>, U: seq<real>, k: nat, delta: real)
    requires k < |U| && AllWidths(ms, |U|)
  {
    ConstraintsHold(ms, Raised(U, k, delta))
  }

  lemma {:induction false} DotRaised(row: Row, U: seq<real>, k: nat, delta: real, h: nat)
    requires |row| == |U| && k < |U| && h <= |U|
    ensures Dot(row, Raised(U, k, delta), h) == Dot(row, U, h) + (if k < h then delta * row[k] else 0.0)
  {
    if h > 0 {
      DotRaised(row, U, k, delta, h - 1);
      if k == h - 1 {
        Distribute(U[k], delta, row[k]);
      }
    }
  }

  /** The room a row leaves to utilisation k, and the value that stands for no limit. */
  ghost function RowRoom(row: Row, U: seq<real>, k: nat): real
    requires |row| == |U| && k < |U|
  {
    if row[k] == 0.0 then 100000000.0 else (1.0 - Dot(row, U, |U|)) / row[k]
  }

  lemma RowRaised(row: Row, U: seq<real>, k: nat, delta: real)
    requires |row| == |U| && k < |U| && row[k] >= 0.0
    ensures row[k] > 0.0 ==> (RowHolds(row, Raised(U, k, delta)) <==> delta <= RowRoom(row, U, k))
    ensures row[k] == 0.0 ==> (RowHolds(row, Raised(U, k, delta)) <==> RowHolds(row, U))
  {
    DotRaised(row, U, k, delta, |U|);
    if row[k] > 0.0 {
      var room := RowRoom(row, U, k);
      assert room * row[k] == 1.0 - Dot(row, U, |U|);
      ScaleCompare(delta, room, row[k]);
    }
  }

  /** The largest room over the rows of a matrix, but never below 0. */
  ghost predicate IsMatrixRoom(m: Matrix, U: seq<real>, k: nat, room: real)
    requires k < |U| && Widths(m, |U|)
  {
    && 0.0 <= room
    && (forall r :: 0 <= r < |m| ==> RowRoom(m[r], U, k) <= room)
    && (room == 0.0 || exists r :: 0 <= r < |m| && RowRoom(m[r], U, k) == room)
  }

  /** Where column k weighs, a matrix keeps holding up to its room and not beyond. */
  lemma MatrixRaised(m: Matrix, U: seq<real>, k: nat, room: real, delta: real)
    requires k < |U| && Widths(m, |U|) && IsMatrixRoom(m, U, k, room)
    requires forall r :: 0 <= r < |m| ==> m[r][k] > 0.0
    requires MatrixHolds(m, U) && 0.0 <= delta
    ensures MatrixHolds(m, Raised(U, k, delta)) <==> delta <= room
  {
    var U' := Raised(U, k, delta);
    if MatrixHolds(m, U') {
      var r :| 0 <= r < |m| && RowHolds(m[r], U');
      RowRaised(m[r], U, k, delta);
    }
    if delta <= room {
      if room == 0.0 {
        assert U' == U;
      } else {
        var r :| 0 <= r < |m| && RowRoom(m[r], U, k) == room;
        RowRaised(m[r], U, k, delta);
        assert RowHolds(m[r], U');
      }
    }
  }

  lemma MatrixUnaffected(m: Matrix, U: seq<real>, k: nat, delta: real)
    requires k < |U| && Widths(m, |U|)
    requires forall r :: 0 <= r < |m| ==> m[r][k] == 0.0
    ensures MatrixHolds(m, Raised(U, k, delta)) <==> MatrixHolds(m, U)
  {
    forall r | 0 <= r < |m| ensures RowHolds(m[r], Raised(U, k, delta)) <==> RowHolds(m[r], U) {
      RowRaised(m[r], U, k, delta);
    }
  }

  lemma CeilPositive(t: int, p: int)
    requires t > 0 && p >= 1
    ensures CeilDiv(t, p) >= 1
  {
    CeilIs(1, p, 1);
    CeilMonotone(1, t, p);
  }

  lemma SignOfQuotient(x: real, t: real, w: real)
    requires t > 0.0 && x * t == w
    ensures x > 0.0 <==> w > 0.0
    ensures x == 0.0 <==> w == 0.0
    ensures x >= 1.0 <==> w >= t
  {
    ScaleCompare(1.0, x, t);
  }

  lemma ColumnWeight(row: Row, P: seq<int>, i: nat, t: int, k: nat)
    requires Periods(P) && i < |P| && k < |P| && 0 < t <= P[i] && IsRow(row, P, i, t)
    ensures i < k ==> row[k] == 0.0
    ensures k <= i ==> row[k] > 0.0
    ensures k == i ==> row[k] >= 1.0
  {
    assert IsEntry(row[k], P, i, t, k);
    CeilPositive(t, P[k]);
    MulMonotone(1, CeilDiv(t, P[k]), P[k]);
    SignOfQuotient(row[k], t as real, Weight(P, i, t, k) as real);
  }

  /** How column k weighs in server i's matrix. */
  lemma ColumnWeights(m: Matrix, points: seq<int>, P: seq<int>, i: nat, k: nat)
    requires Periods(P) && i < |P| && k < |P| && IsMatrix(m, points, P, i)
    ensures |m| > 0
    ensures i < k ==> forall r :: 0 <= r < |m| ==> m[r][k] == 0.0
    ensures k <= i ==> forall r :: 0 <= r < |m| ==> m[r][k] > 0.0
    ensures k == i ==> forall r :: 0 <= r < |m| ==> m[r][k] >= 1.0
  {
    PointsInWindow(P, i, P[i]);
    assert P[i] in points;
    forall r | 0 <= r < |m|
      ensures (i < k ==> m[r][k] == 0.0) && (k <= i ==> m[r][k] > 0.0) && (k == i ==> m[r][k] >= 1.0)
    {
      assert points[r] in points;
      ColumnWeight(m[r], P, i, points[r], k);
    }
  }

  // ------------------------------------------------------------------ the sensitivity of one budget

  /** The room of each server's constraints, and the least of them. */
  ghost predicate AreRooms(ms: seq<Matrix>, U: seq<real>, k: nat, rooms: seq<real>, sens: real)
    requires k < |U| && AllWidths(ms, |U|)
  {
    && |rooms| == |ms|
    && (forall i :: 0 <= i < |ms| ==> IsMatrixRoom(ms[i], U, k, rooms[i]))
    && (forall i :: 0 <= i < |ms| ==> sens <= rooms[i])
    && exists i :: 0 <= i < |ms| && rooms[i] == sens
  }

  /** The room the whole set leaves to utilisation k. */
  ghost predicate IsSensitivity(ms: seq<Matrix>, U: seq<real>, k: nat, sens: real)
    requires k < |U| && AllWidths(ms, |U|)
  {
    exists rooms: seq<real> :: AreRooms(ms, U, k, rooms, sens)
  }

  lemma {:induction false} DotNonNegative(row: Row, U: seq<real>, k: nat)
    requires k <= |row| && k <= |U|
    requires forall j :: 0 <= j < k ==> row[j] >= 0.0 && U[j] >= 0.0
    ensures Dot(row, U, k) >= 0.0
  {
    if k > 0 {
      DotNonNegative(row, U, k - 1);
    }
  }

  lemma QuotientWithinOne(a: real, b: real)
    requires a <= 1.0 && b >= 1.0
    ensures a / b <= 1.0
  {
    ScaleCompare(a / b, 1.0, b);
  }

  /** A server's own constraint caps the room at 1, so the value for "no limit" never decides. */
  lemma OwnRoomWithinOne(m: Matrix, points: seq<int>, P: seq<int>, U: seq<real>, k: nat, room: real)
    requires Periods(P) && k < |P| == |U| && IsMatrix(m, points, P, k)
    requires forall j :: 0 <= j < |U| ==> U[j] >= 0.0
    requires Widths(m, |U|) && IsMatrixRoom(m, U, k, room)
    ensures room <= 1.0
  {
    if room != 0.0 {
      var r :| 0 <= r < |m| && RowRoom(m[r], U, k) == room;
      ColumnWeights(m, points, P, k, k);
      forall j | 0 <= j < |P| ensures m[r][j] >= 0.0 {
        ColumnWeights(m, points, P, k, j);
      }
      DotNonNegative(m[r], U, |U|);
      QuotientWithinOne(1.0 - Dot(m[r], U, |U|), m[r][k]);
    }
  }

  /** The closed form is exact: from a schedulable set, raising utilisation k by delta keeps the
      constraints exactly when delta is within the sensitivity, which never exceeds 1. */
  lemma SensitivityExact(ms: seq<Matrix>, points: seq<seq<int>>, P: seq<int>, U: seq<real>, k: nat, sens: real)
    requires Periods(P) && k < |P| == |U| && IsConstraints(ms, points, P)
    requires forall j :: 0 <= j < |U| ==> U[j] >= 0.0
    requires AllWidths(ms, |U|) && IsSensitivity(ms, U, k, sens)
    ensures 0.0 <= sens <= 1.0
    ensures ConstraintsHold(ms, U) ==>
              forall delta :: 0.0 <= delta ==> (RaiseHolds(ms, U, k, delta) <==> delta <= sens)
  {
    var rooms: seq<real> :| AreRooms(ms, U, k, rooms, sens);
    assert IsMatrix(ms[k], points[k], P, k);
    OwnRoomWithinOne(ms[k], points[k], P, U, k, rooms[k]);
    forall delta | ConstraintsHold(ms, U) && 0.0 <= delta
      ensures RaiseHolds(ms, U, k, delta) <==> delta <= sens
    {
      RaiseWithinSensitivity(ms, points, P, U, k, rooms, sens, delta);
    }
  }

  lemma RaiseWithinSensitivity(ms: seq<Matrix>, points: seq<seq<int>>, P: seq<int>, U: seq<real>, k: nat,
                               rooms: seq<real>, sens: real, delta: real)
    requires Periods(P) && k < |P| == |U| && IsConstraints(ms, points, P)
    requires AllWidths(ms, |U|) && ConstraintsHold(ms, U) && 0.0 <= delta
    requires AreRooms(ms, U, k, rooms, sens) && sens <= 1.0
    ensures RaiseHolds(ms, U, k, delta) <==> delta <= sens
  {
    var U' := Raised(U, k, delta);
    forall i | 0 <= i < |ms|
      ensures MatrixHolds(ms[i], U') <==> i < k || delta <= rooms[i]
      ensures i < k ==> rooms[i] > 1.0
    {
      assert IsMatrix(ms[i], points[i], P, i);
      ColumnWeights(ms[i], points[i], P, i, k);
      assert MatrixHolds(ms[i], U);
      if i < k {
        MatrixUnaffected(ms[i], U, k, delta);
        assert RowRoom(ms[i][0], U, k) <= rooms[i];
      } else {
        MatrixRaised(ms[i], U, k, rooms[i], delta);
      }
    }
    var low :| 0 <= low < |ms| && rooms[low] == sens;
    assert RaiseHolds(ms, U, k, delta) ==> MatrixHolds(ms[low], U');
  }

  // ------------------------------------------------------------------ budgets and utilisations

  lemma UtilisationAt(q: int, p: int, u: real)
    requires p >= 1
    ensures u == q as real / p as real <==> IsUtilisation(u, p, q)
  {}

  /** An increase of the budget by db raises the utilisation by db over the period. */
  lemma BudgetRaise(P: seq<int>, Q: seq<int>, U: seq<real>, k: nat, db: int)
    requires ServerSet(P, Q) && AreUtilisations(U, P, Q) && k < |P|
    ensures AreUtilisations(Raised(U, k, db as real / P[k] as real), P, Q[k := Q[k] + db])
  {
    var x := db as real / P[k] as real;
    UtilisationAt(db, P[k], x);
    assert IsUtilisation(U[k], P[k], Q[k]);
    Distribute(U[k], x, P[k] as real);
    UtilisationsUpdated(U, P, Q, k, U[k] + x, Q[k] + db);
  }

  /** The test on the utilisations decides whether the budget is admissible. */
  lemma RaiseIsAdmission(ms: seq<Matrix>, points: seq<seq<int>>, P: seq<int>, Q: seq<int>, U: seq<real>, k: nat, db: nat)
    requires ServerSet(P, Q) && AtLeast(Q, 1) && k < |P|
    requires IsConstraints(ms, points, P) && AreUtilisations(U, P, Q) && AllWidths(ms, |U|)
    ensures RaiseHolds(ms, U, k, db as real / P[k] as real) <==> Admits(P, Q, k, Q[k] + db)
  {
    var Q', U' := Q[k := Q[k] + db], Raised(U, k, db as real / P[k] as real);
    BudgetRaise(P, Q, U, k, db);
    ConstraintsAreSchedulability(ms, points, U', P, Q');
  }

  lemma FloorIsLargest(sens: real, p: int, d: int)
    requires p >= 1 && d == (sens * p as real).Floor
    ensures d as real / p as real <= sens < (d + 1) as real / p as real
    ensures 0.0 <= sens ==> 0 <= d
  {
    var x := p as real;
    ScaleCompare(d as real / x, sens, x);
    ScaleCompare((d + 1) as real / x, sens, x);
  }

  lemma UtilisationsNonNegative(U: seq<real>, P: seq<int>, Q: seq<int>)
    requires ServerSet(P, Q) && AtLeast(Q, 0) && AreUtilisations(U, P, Q)
    ensures forall j :: 0 <= j < |U| ==> U[j] >= 0.0
  {
    forall j | 0 <= j < |U| ensures U[j] >= 0.0 {
      assert IsUtilisation(U[j], P[j], Q[j]);
      ScaleCompare(0.0, U[j], P[j] as real);
    }
  }

  function Activations(P: seq<int>, i: nat, t: int, col: nat): int
    requires Periods(P) && i < |P| && col < |P|
  {
    if col < i then CeilDiv(t, P[col]) else if col == i then 1 else 0
  }

  /** The entries below n are normalised, the others still count activations. */
  ghost predicate NormalisedUpTo(row: Row, P: seq<int>, i: nat, t: int, n: nat)
    requires Periods(P) && i < |P|
  {
    && |row| == |P|
    && (forall h :: n <= h < |P| ==> row[h] == Activations(P, i, t, h) as real)
    && (forall h :: 0 <= h < n && h < |P| ==> IsEntry(row[h], P, i, t, h))
  }

  lemma EntryOf(P: seq<int>, i: nat, t: int, col: nat, c: real, x: real)
    requires Periods(P) && i < |P| && col < |P|
    requires c == Activations(P, i, t, col) as real && x * t as real == c * P[col] as real
    ensures IsEntry(x, P, i, t, col)
  {
    RealProduct(Activations(P, i, t, col), P[col]);
  }

  lemma NormaliseOne(row: Row, P: seq<int>, i: nat, t: int, n: nat, x: real)
    requires Periods(P) && i < |P| && n < |P| && NormalisedUpTo(row, P, i, t, n)
    requires x * t as real == row[n] * P[n] as real
    ensures NormalisedUpTo(row[n := x], P, i, t, n + 1)
  {
    var row' := row[n := x];
    EntryOf(P, i, t, n, row[n], x);
    forall h | 0 <= h < n + 1 ensures IsEntry(row'[h], P, i, t, h) {
      assert h < n ==> row'[h] == row[h];
    }
  }

  method Normalise(c: real, p: int, t: int) returns (x: real)
    requires t > 0
    ensures x * t as real == c * p as real
  {
    x := c * p as real / t as real;
  }

  method Utilisation(budget: int, p: int) returns (u: real)
    requires p >= 1
    ensures IsUtilisation(u, p, budget)
  {
    u := budget as real / p as real;
  }

  lemma UtilisationsUpdated(U: seq<real>, P: seq<int>, Q: seq<int>, k: nat, u: real, b: int)
    requires ServerSet(P, Q) && AreUtilisations(U, P, Q) && k < |P| && IsUtilisation(u, P[k], b)
    ensures AreUtilisations(U[k := u], P, Q[k := b])
  {
    var U', Q' := U[k := u], Q[k := b];
    forall j | 0 <= j < |P| ensures IsUtilisation(U'[j], P[j], Q'[j]) {
      assert IsUtilisation(U[j], P[j], Q[j]);
    }
  }

  ghost predicate Within(d: int, p: int, sens: real)
    requires p >= 1
  {
    d as real / p as real <= sens
  }

  lemma LargerQuotient(db: int, d: int, p: int, sens: real)
    requires p >= 1 && sens < db as real / p as real && d as real / p as real <= sens
    ensures d < db
  {
    ScaleCompare(db as real / p as real, d as real / p as real, p as real);
  }

  /** What the sensitivity allows of a request is what the servers can afford of it. */
  lemma GrantIsSensitivity(ms: seq<Matrix>, points: seq<seq<int>>, P: seq<int>, Q: seq<int>, U: seq<real>, k: nat,
                           sens: real, db: int, d: int)
    requires ServerSet(P, Q) && AtLeast(Q, 1) && AllSchedulable(P, Q) && k < |P|
    requires IsConstraints(ms, points, P) && AreUtilisations(U, P, Q) && AllWidths(ms, |U|)
    requires forall delta :: 0.0 <= delta ==> (RaiseHolds(ms, U, k, delta) <==> delta <= sens)
    requires 0 <= d <= db && Within(d, P[k], sens) && (d == db || !Within(d + 1, P[k], sens))
    ensures Granted(P, Q, k, db) == d
  {
    ScaleCompare(0.0, d as real / P[k] as real, P[k] as real);
    RaiseIsAdmission(ms, points, P, Q, U, k, d);
    if d < db {
      ScaleCompare(0.0, (d + 1) as real / P[k] as real, P[k] as real);
      RaiseIsAdmission(ms, points, P, Q, U, k, d + 1);
    }
    GrantedByTests(P, Q, k, db, d);
  }

  /** The part of a request for db that a sensitivity allows a server of period p. */
  method Cut(db: int, p: int, sens: real) returns (d: int)
    requires p >= 1 && db > 0
    ensures d <= db && Within(d, p, sens)
    ensures d == db || !Within(d + 1, p, sens)
    ensures 0.0 <= sens ==> 0 <= d
  {
    if db as real / p as real <= sens {
      d := db;
    } else {
      d := (sens * p as real).Floor;
      FloorIsLargest(sens, p, d);
      LargerQuotient(db, d, p, sens);
    }
  }

  class SchedPoint {
    var counter: nat
    var servers: map<nat, nat>
    var period: seq<int>
    var wcet: seq<int>
    var U: seq<real>
    var exactConstraints: seq<Matrix>
    ghost var points: seq<seq<int>>

    ghost predicate Valid()
      reads this
    {
      && ServerSet(period, wcet) && AreUtilisations(U, period, wcet)
      && counter == |period|
      && forall s :: s in servers ==> servers[s] < counter
    }

    /** The constraints were built for the present periods. */
    ghost predicate Built()
      reads this
      requires Valid()
    {
      IsConstraints(exactConstraints, points, period)
    }

    constructor ()
      ensures Valid() && period == [] && wcet == []
    {
      counter := 0;
      servers, period, wcet, U := map[], [], [], [];
      exactConstraints, points := [], [];
    }

    method AddServer(s: nat, cc: int, pp: int)
      requires Valid() && pp >= 1
      modifies this
      ensures Valid()
      ensures period == old(period) + [pp] && wcet == old(wcet) + [cc]
      ensures servers == old(servers)[s := |old(period)|]
    {
      servers := servers[s := counter];
      counter := counter + 1;
      period := period + [pp];
      wcet := wcet + [cc];
      var u := Utilisation(cc, pp);
      U := U + [u];
    }

    /** The activations of each server that server curTask's demand at the instant t counts. */
    method CountActivations(curTask: nat, t: int) returns (curCoef: Row)
      requires Valid() && curTask < |period|
      ensures |curCoef| == |period|
      ensures forall h :: 0 <= h < |period| ==> curCoef[h] == Activations(period, curTask, t, h) as real
    {
      curCoef := [];
      for j := 0 to curTask
        invariant |curCoef| == j
        invariant forall h :: 0 <= h < j ==> curCoef[h] == Activations(period, curTask, t, h) as real
      {
        curCoef := curCoef + [CeilDiv(t, period[j]) as real];
      }
      curCoef := curCoef + [1.0];
      for j := curTask + 1 to |period|
        invariant |curCoef| == j
        invariant forall h :: 0 <= h < j ==> curCoef[h] == Activations(period, curTask, t, h) as real
      {
        curCoef := curCoef + [0.0];
      }
    }

    /** The normalised coefficients of server curTask's demand at the instant t. */
    method BuildRow(curTask: nat, t: int) returns (curCoef: Row)
      requires Valid() && curTask < |period| && t > 0
      ensures IsRow(curCoef, period, curTask, t)
    {
      curCoef := CountActivations(curTask, t);
      for i := 0 to |curCoef|
        invariant NormalisedUpTo(curCoef, period, curTask, t, i)
      {
        var x := Normalise(curCoef[i], period[i], t);
        NormaliseOne(curCoef, period, curTask, t, i, x);
        curCoef := curCoef[i := x];
      }
    }

    /** One row per scheduling point. */
    method BuildMatrix(curTask: nat, schedP: seq<int>) returns (oneTask: Matrix)
      requires Valid() && curTask < |period|
      requires forall p :: p in schedP <==> p in PointSet(period, curTask, period[curTask])
      ensures IsMatrix(oneTask, schedP, period, curTask)
    {
      PointsInWindow(period, curTask, period[curTask]);
      assert forall r :: 0 <= r < |schedP| ==> schedP[r] in schedP;
      oneTask := [];
      for curPoint := 0 to |schedP|
        invariant |oneTask| == curPoint
        invariant forall r :: 0 <= r < curPoint ==> IsRow(oneTask[r], period, curTask, schedP[r])
      {
        var curCoef := BuildRow(curTask, schedP[curPoint]);
        oneTask := oneTask + [curCoef];
      }
    }

    /** Builds one matrix per server. */
    method BuildConstraints()
      requires Valid()
      modifies this`exactConstraints, this`points
      ensures Valid() && Built()
    {
      exactConstraints, points := [], [];
      for curTask := 0 to |period|
        invariant Valid()
        invariant |exactConstraints| == |points| == curTask
        invariant forall i :: 0 <= i < curTask ==> IsMatrix(exactConstraints[i], points[i], period, i)
      {
        var schedP := SetP(period[curTask], period, curTask);
        var oneTask := BuildMatrix(curTask, schedP);
        exactConstraints, points := exactConstraints + [oneTask], points + [schedP];
      }
    }

    /** The room one server's constraints leave to utilisation task. */
    method MatrixSensitivity(curConstraint: Matrix, task: nat) returns (maximo: real)
      requires task < |U| && Widths(curConstraint, |U|)
      ensures IsMatrixRoom(curConstraint, U, task, maximo)
    {
      var product: seq<real> := [];
      for row := 0 to |curConstraint|
        invariant |product| == row
        invariant forall r :: 0 <= r < row ==> product[r] == Dot(curConstraint[r], U, |U|)
      {
        var suma := 0.0;
        for col := 0 to |U|
          invariant suma == Dot(curConstraint[row], U, col)
        {
          suma := suma + curConstraint[row][col] * U[col];
        }
        product := product + [suma];
      }
      for row := 0 to |product|
        invariant |product| == |curConstraint|
        invariant forall r :: 0 <= r < row ==> product[r] == RowRoom(curConstraint[r], U, task)
        invariant forall r :: row <= r < |product| ==> product[r] == Dot(curConstraint[r], U, |U|)
      {
        product := product[row := 1.0 - product[row]];
        if curConstraint[row][task] == 0.0 {
          product := product[row := 100000000.0];
        } else {
          product := product[row := product[row] / curConstraint[row][task]];
        }
      }
      maximo := 0.0;
      for i := 0 to |product|
        invariant 0.0 <= maximo
        invariant forall r :: 0 <= r < i ==> product[r] <= maximo
        invariant maximo == 0.0 || exists r :: 0 <= r < i && product[r] == maximo
      {
        if maximo < product[i] {
          maximo := product[i];
        }
      }
    }

    method Minimum(lambdaVec: seq<real>) returns (minimo: real)
      requires |lambdaVec| > 0
      ensures exists h :: 0 <= h < |lambdaVec| && lambdaVec[h] == minimo
      ensures forall h :: 0 <= h < |lambdaVec| ==> minimo <= lambdaVec[h]
    {
      minimo := lambdaVec[0];
      for i := 0 to |lambdaVec|
        invariant exists h :: 0 <= h < |lambdaVec| && lambdaVec[h] == minimo
        invariant forall h :: 0 <= h < i ==> minimo <= lambdaVec[h]
      {
        if minimo > lambdaVec[i] {
          minimo := lambdaVec[i];
        }
      }
    }

    /** The largest increase of utilisation task the constraints allow. */
    method Sensitivity(task: nat) returns (minimo: real)
      requires Valid() && Built() && task < |period|
      ensures AllWidths(exactConstraints, |U|) && IsSensitivity(exactConstraints, U, task, minimo)
      ensures AtLeast(wcet, 0) ==> 0.0 <= minimo <= 1.0
      ensures AtLeast(wcet, 1) && AllSchedulable(period, wcet) ==>
                forall delta :: 0.0 <= delta ==> (RaiseHolds(exactConstraints, U, task, delta) <==> delta <= minimo)
    {
      ConstraintWidths(exactConstraints, points, period);
      var lambdaVec: seq<real> := [];
      for i := 0 to |U|
        invariant |lambdaVec| == i
        invariant forall h :: 0 <= h < i ==> IsMatrixRoom(exactConstraints[h], U, task, lambdaVec[h])
      {
        var maximo := MatrixSensitivity(exactConstraints[i], task);
        lambdaVec := lambdaVec + [maximo];
      }
      minimo := Minimum(lambdaVec);
      assert AreRooms(exactConstraints, U, task, lambdaVec, minimo);
      if AtLeast(wcet, 0) {
        UtilisationsNonNegative(U, period, wcet);
        SensitivityExact(exactConstraints, points, period, U, task, minimo);
      }
      if AtLeast(wcet, 1) {
        ConstraintsAreSchedulability(exactConstraints, points, U, period, wcet);
      }
    }

    /** What the sensitivity lets through of a request for more. */
    method LimitIncrease(index: nat, db: int) returns (delta: int)
      requires Valid() && Built() && index < |period| && db > 0
      ensures delta <= db
      ensures AtLeast(wcet, 1) && AllSchedulable(period, wcet) ==> delta == Granted(period, wcet, index, db)
    {
      var sens := Sensitivity(index);
      delta := Cut(db, period[index], sens);
      if AtLeast(wcet, 1) && AllSchedulable(period, wcet) {
        GrantIsSensitivity(exactConstraints, points, period, wcet, U, index, sens, db, delta);
      }
    }

    /** Answers a request to change a server's budget by `db`, and installs the new budget,
        at least 1. A server that was never added reads as the first one. */
    method ChangeBudget(s: nat, db: int) returns (delta: int)
      requires Valid() && Built() && |period| > 0
      modifies this`servers, this`wcet, this`U
      ensures Valid() && Built() && delta <= db && (db <= 0 ==> delta == db)
      ensures var k := if s in old(servers) then old(servers)[s] else 0;
              && servers == old(servers)[s := k]
              && wcet == old(wcet)[k := if old(wcet)[k] + delta < 1 then 1 else old(wcet)[k] + delta]
              && (AtLeast(old(wcet), 1) && AllSchedulable(period, old(wcet)) ==>
                    delta == Granted(period, old(wcet), k, db))
    {
      delta := db;
      var index := if s in servers then servers[s] else 0;
      servers := servers[s := index];
      if delta > 0 {
        delta := LimitIncrease(index, db);
      }
      var budget := wcet[index] + delta;
      if budget < 1 {
        budget := 1;
      }
      var u := Utilisation(budget, period[index]);
      UtilisationsUpdated(U, period, wcet, index, u, budget);
      wcet := wcet[index := budget];
      U := U[index := u];
    }
  }
}
