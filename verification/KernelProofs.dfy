/** Why the kernel's operations keep its invariant, and what the invariant gives. */
module KernelProofs {
  import opened Common
  import opened KernelState

  // ------------------------------------------------------------------ counting

  lemma {:induction false} ImageSize(m: map<Task, CPU>, ts: set<Task>)
    requires ts <= m.Keys
    requires forall t, u :: t in ts && u in ts && m[t] == m[u] ==> t == u
    ensures |set t | t in ts :: m[t]| == |ts|
  {
    if ts != {} {
      var x :| x in ts;
      var rest := ts - {x};
      ImageSize(m, rest);
      assert (set t | t in ts :: m[t]) == (set t | t in rest :: m[t]) + {m[x]};
    }
  }

  lemma {:induction false} RangeSize(n: nat, r: set<CPU>)
    requires forall c :: c in r <==> 0 <= c < n
    ensures |r| == n
  {
    if n > 0 {
      RangeSize(n - 1, r - {n - 1});
    } else {
      assert r == {};
    }
  }

  lemma {:induction false} DistinctSize(s: seq<Task>, k: nat)
    requires k <= |s| && Distinct(s)
    ensures |set i | 0 <= i < k :: s[i]| == k
  {
    if k > 0 {
      DistinctSize(s, k - 1);
      assert (set i | 0 <= i < k :: s[i]) == (set i | 0 <= i < k - 1 :: s[i]) + {s[k - 1]};
    }
  }

  lemma OnePerCpu(s: State, t: Task, u: Task)
    requires Coherent(s) && t in s.dispatched && u in s.dispatched && s.dispatched[t] == s.dispatched[u]
    ensures t == u
  {
    assert TaskCoherent(s, t) && TaskCoherent(s, u);
    assert CpuCoherent(s, s.dispatched[t]);
  }

  /** As many CPUs host tasks of a set as tasks of it are dispatched. */
  lemma HostsSize(s: State, ts: set<Task>)
    requires Coherent(s)
    ensures |Hosts(s, ts)| == |ts * s.dispatched.Keys|
    ensures Hosts(s, ts) <= Cpus(s)
  {
    var ds := ts * s.dispatched.Keys;
    forall t, u | t in ds && u in ds && s.dispatched[t] == s.dispatched[u] ensures t == u {
      OnePerCpu(s, t, u);
    }
    ImageSize(s.dispatched, ds);
    assert Hosts(s, ts) == set t | t in ds :: s.dispatched[t];
    forall c | c in Hosts(s, ts) ensures c in Cpus(s) {
      var t :| t in s.dispatched && t in ts && s.dispatched[t] == c;
      assert TaskCoherent(s, t);
    }
  }

  /** The CPUs that host none of the tasks that ought to run. */
  ghost function Open(s: State): set<CPU>
  {
    Cpus(s) - Hosts(s, s.Prefix())
  }

  /** The tasks that ought to run and are not dispatched. */
  ghost function Waiting(s: State): set<Task>
  {
    s.Prefix() - s.dispatched.Keys
  }

  /** How many of the first i tasks of the ready queue are not dispatched. */
  ghost function Undispatched(s: State, i: nat): nat
    requires i <= |s.ready|
  {
    if i == 0 then 0 else Undispatched(s, i - 1) + (if s.ready[i - 1] !in s.dispatched then 1 else 0)
  }

  /** These tasks themselves. */
  ghost function WaitingBefore(s: State, i: nat): set<Task>
    requires i <= |s.ready|
  {
    set j | 0 <= j < i && s.ready[j] !in s.dispatched :: s.ready[j]
  }

  lemma WaitingStep(s: State, i: nat)
    requires Distinct(s.ready) && i < |s.ready|
    ensures |WaitingBefore(s, i + 1)| == |WaitingBefore(s, i)| + (if s.ready[i] !in s.dispatched then 1 else 0)
  {
    if s.ready[i] !in s.dispatched {
      assert s.ready[i] !in WaitingBefore(s, i);
      assert WaitingBefore(s, i + 1) == WaitingBefore(s, i) + {s.ready[i]};
    } else {
      assert WaitingBefore(s, i + 1) == WaitingBefore(s, i);
    }
  }

  lemma {:induction false} UndispatchedSize(s: State, i: nat)
    requires Distinct(s.ready) && i <= |s.ready|
    ensures Undispatched(s, i) == |WaitingBefore(s, i)|
  {
    if i == 0 {
      assert WaitingBefore(s, i) == {};
    } else {
      UndispatchedSize(s, i - 1);
      WaitingStep(s, i - 1);
    }
  }

  lemma WaitingSize(s: State)
    requires Distinct(s.ready)
    ensures Undispatched(s, s.K()) == |Waiting(s)|
  {
    UndispatchedSize(s, s.K());
    assert Waiting(s) == WaitingBefore(s, s.K());
  }

  lemma RunningIsDispatched(s: State, c: CPU)
    requires Coherent(s) && c < s.N() && s.currExe[c].Some?
    ensures s.currExe[c].value in s.dispatched
  {
    assert CpuCoherent(s, c);
  }

  lemma PrefixSize(s: State)
    requires Distinct(s.ready)
    ensures |s.Prefix()| == s.K()
  {
    DistinctSize(s.ready, s.K());
  }

  lemma DifferenceSize<T>(a: set<T>, b: set<T>)
    ensures |a - b| == |a| - |a * b|
  {
    assert a == (a - b) + a * b;
  }

  /** There are always enough CPUs to take the waiting tasks. */
  lemma OpenSize(s: State)
    requires Coherent(s)
    ensures |Open(s)| == s.N() - s.K() + |Waiting(s)|
    ensures |s.Prefix()| == s.K()
  {
    var ts := s.Prefix();
    PrefixSize(s);
    RangeSize(s.N(), Cpus(s));
    HostsSize(s, ts);
    DifferenceSize(ts, s.dispatched.Keys);
    SubsetSize(Hosts(s, ts), Cpus(s));
  }

  // ------------------------------------------------------------------ dispatching

  lemma DispatchOnCoherent(s: State, p: CPU)
    requires Coherent(s) && p < s.N()
    ensures Coherent(DispatchOn(s, p))
  {
    var s' := DispatchOn(s, p);
    assert CpuCoherent(s, p) && CpuOnTime(s, p);
    forall t | t in s'.dispatched ensures TaskCoherent(s', t) {
      assert TaskCoherent(s, t);
    }
    forall c | 0 <= c < s.N() ensures CpuCoherent(s', c) && CpuOnTime(s', c) {
      assert CpuCoherent(s, c) && CpuOnTime(s, c);
      if c != p && s.end[c].Some? && s.endTask[c].Some? {
        assert On(s', s.endTask[c].value, c);
      }
      if c != p && s.currExe[c].Some? {
        assert On(s', s.currExe[c].value, c);
      }
    }
  }

  /** Dispatching on a CPU lets go of no task but one in a context switch there. */
  lemma DispatchOnEffect(s: State, p: CPU)
    requires Coherent(s) && p < s.N()
    ensures var s' := DispatchOn(s, p);
            && s'.begin[p].Some?
            && (forall c :: 0 <= c < s.N() && c != p ==> s'.begin[c] == s.begin[c])
            && (forall t :: t in s'.dispatched ==> On(s, t, s'.dispatched[t]))
            && (forall t :: t in s.dispatched && s.dispatched[t] != p ==> On(s', t, s.dispatched[t]))
  {
    assert CpuCoherent(s, p);
  }

  /** What dispatching on the CPUs cs does: they all have a begin event queued, no other CPU does
      on that account, and only tasks on them may have been let go. */
  ghost predicate DispatchedOn(s: State, cs: seq<CPU>, s': State)
    requires Sized(s) && Sized(s') && s'.N() == s.N() && forall i :: 0 <= i < |cs| ==> cs[i] < s.N()
  {
    && (forall c :: c in cs ==> s'.begin[c].Some?)
    && (forall c :: 0 <= c < s.N() && c !in cs ==> s'.begin[c] == s.begin[c])
    && (forall t :: t in s'.dispatched ==> On(s, t, s'.dispatched[t]))
    && (forall t :: t in s.dispatched && s.dispatched[t] !in cs ==> On(s', t, s.dispatched[t]))
  }

  lemma DispatchedOnOneMore(s: State, cs: seq<CPU>, s1: State, p: CPU)
    requires Sized(s) && Coherent(s1) && s1.N() == s.N() && p < s.N()
    requires (forall i :: 0 <= i < |cs| ==> cs[i] < s.N()) && DispatchedOn(s, cs, s1)
    ensures DispatchedOn(s, cs + [p], DispatchOn(s1, p))
  {
    var s' := DispatchOn(s1, p);
    DispatchOnEffect(s1, p);
    forall t | t in s'.dispatched ensures On(s, t, s'.dispatched[t]) {
      assert On(s1, t, s'.dispatched[t]);
    }
    forall t | t in s.dispatched && s.dispatched[t] !in cs + [p] ensures On(s', t, s.dispatched[t]) {
      assert On(s1, t, s.dispatched[t]);
    }
  }

  lemma {:induction false} DispatchAllEffect(s: State, cs: seq<CPU>)
    requires Coherent(s) && forall i :: 0 <= i < |cs| ==> cs[i] < s.N()
    ensures Coherent(DispatchAll(s, cs)) && DispatchedOn(s, cs, DispatchAll(s, cs))
  {
    if cs != [] {
      var init, p := cs[..|cs| - 1], cs[|cs| - 1];
      assert cs == init + [p];
      DispatchAllEffect(s, init);
      DispatchOnCoherent(DispatchAll(s, init), p);
      DispatchedOnOneMore(s, init, DispatchAll(s, init), p);
    }
  }

  /** What the global dispatch selects: as many open CPUs as tasks are waiting. */
  ghost predicate Selection(s: State, cs: seq<CPU>)
  {
    Distinct(cs) && |cs| == |Waiting(s)| && forall i :: 0 <= i < |cs| ==> cs[i] in Open(s)
  }

  ghost function Elements(cs: seq<CPU>): set<CPU>
  {
    set i | 0 <= i < |cs| :: cs[i]
  }

  lemma SubsetOfSameSize<T>(a: set<T>, b: set<T>)
    requires a <= b && |a| == |b|
    ensures a == b
  {
    assert b == a + (b - a);
  }

  lemma SubsetSize<T>(a: set<T>, b: set<T>)
    requires a <= b
    ensures |a| <= |b| && |b - a| == |b| - |a|
  {
    assert b == a + (b - a);
  }

  lemma SpareAfterSelection(s: State, cs: seq<CPU>)
    requires Coherent(s) && Selection(s, cs)
    ensures Spare(DispatchAll(s, cs)) <= Open(s) - Elements(cs)
  {
    var s' := DispatchAll(s, cs);
    DispatchAllEffect(s, cs);
    forall c | c in Spare(s') ensures c in Open(s) && c !in Elements(cs) {
      assert c !in cs;
      HostsKept(s, s', c);
    }
  }

  /** A CPU whose tasks stay keeps hosting what it hosted. */
  lemma HostsKept(s: State, s': State, c: CPU)
    requires forall t :: t in s.dispatched && s.dispatched[t] == c && t in s.Prefix() ==>
                           On(s', t, c) && t in s'.Prefix()
    ensures c in Hosts(s, s.Prefix()) ==> c in Hosts(s', s'.Prefix())
  {
    if c in Hosts(s, s.Prefix()) {
      var t :| t in s.dispatched && t in s.Prefix() && s.dispatched[t] == c;
      assert On(s', t, c);
    }
  }

  /** With enough tasks the selection takes every open CPU. */
  lemma SelectionIsOpen(s: State, cs: seq<CPU>)
    requires Coherent(s) && Selection(s, cs)
    ensures |Open(s) - Elements(cs)| == s.N() - s.K()
    ensures |s.ready| >= s.N() ==> Open(s) == Elements(cs)
  {
    OpenSize(s);
    DistinctSize(cs, |cs|);
    SubsetSize(Elements(cs), Open(s));
    if |s.ready| >= s.N() {
      SubsetOfSameSize(Elements(cs), Open(s));
    }
  }

  /** The global dispatch establishes the scheduling invariant, whatever held of it before. */
  lemma SelectionSettles(s: State, cs: seq<CPU>)
    requires Coherent(s) && Selection(s, cs)
    ensures Inv(DispatchAll(s, cs))
  {
    var s' := DispatchAll(s, cs);
    DispatchAllEffect(s, cs);
    SelectionIsOpen(s, cs);
    SpareAfterSelection(s, cs);
    SubsetSize(Spare(s'), Open(s) - Elements(cs));
    forall t | t in s'.dispatched && t !in s'.Prefix()
      ensures s'.dispatched[t] < s.N() && s'.begin[s'.dispatched[t]].Some?
    {
      assert On(s, t, s'.dispatched[t]) && TaskCoherent(s, t);
      NonPrefixIsOpen(s, t);
      assert s'.dispatched[t] in Elements(cs);
    }
  }

  lemma NonPrefixIsOpen(s: State, t: Task)
    requires Coherent(s) && t in s.dispatched && t !in s.Prefix()
    ensures s.dispatched[t] in Open(s)
  {
    assert TaskCoherent(s, t);
    if s.dispatched[t] in Hosts(s, s.Prefix()) {
      var u :| u in s.dispatched && u in s.Prefix() && s.dispatched[u] == s.dispatched[t];
      OnePerCpu(s, t, u);
    }
  }

  // ------------------------------------------------------------------ finding the selection

  ghost predicate FreeIn(s: State, c: CPU)
    requires c < s.N()
  {
    s.currExe[c].None? && forall t :: t in s.dispatched ==> s.dispatched[t] != c
  }

  /** How far the global dispatch has come: it has taken the free CPUs below f and then the CPUs of
      the tasks at positions n..i-1 of the ready queue. */
  ghost predicate Picked(s: State, cs: seq<CPU>, f: nat, i: nat)
  {
    && Distinct(cs)
    && (forall h :: 0 <= h < |cs| ==> cs[h] in Open(s))
    && f <= s.N() <= i && (f < s.N() ==> i == s.N() && forall c :: c in cs ==> c < f)
    && (forall c :: 0 <= c < f && FreeIn(s, c) ==> c in cs)
    && (forall c :: c in cs ==> c < s.N() && (FreeIn(s, c) || HostsEarlier(s, c, i)))
    && (forall j :: s.N() <= j < i && j < |s.ready| && s.ready[j] in s.dispatched ==> s.dispatched[s.ready[j]] in cs)
  }

  ghost predicate HostsEarlier(s: State, c: CPU, i: nat)
  {
    exists j :: s.N() <= j < i && j < |s.ready| && On(s, s.ready[j], c)
  }

  lemma NothingPicked(s: State, f: nat)
    requires f <= s.N() && forall c :: 0 <= c < f ==> !FreeIn(s, c)
    ensures Picked(s, [], f, s.N())
  {}

  lemma PickedIsSelection(s: State, cs: seq<CPU>, f: nat, i: nat)
    requires Picked(s, cs, f, i) && |cs| == |Waiting(s)|
    ensures Selection(s, cs)
  {}

  lemma FreeIsOpen(s: State, c: CPU)
    requires c < s.N() && FreeIn(s, c)
    ensures c in Open(s)
  {}

  lemma PickFree(s: State, cs: seq<CPU>, f: nat, g: nat)
    requires f < s.N() && Picked(s, cs, f, s.N()) && FreeIn(s, f)
    requires f < g <= s.N()
    requires forall c :: f < c < g ==> !FreeIn(s, c)
    ensures Picked(s, cs + [f], g, s.N())
  {
    FreeIsOpen(s, f);
    forall h | 0 <= h < |cs| ensures cs[h] != f {
      assert cs[h] in cs;
    }
  }

  /** The search for the next free CPU after f, made once f is taken. */
  lemma NextFree(s: State, cs: seq<CPU>, s': State, f: nat, g: nat)
    requires Sized(s) && Sized(s') && s'.N() == s.N() && s'.currExe == s.currExe
    requires f < s.N() && Picked(s, cs, f, s.N()) && FreeIn(s, f)
    requires (forall h :: 0 <= h < |cs| ==> cs[h] < s.N()) && DispatchedOn(s, cs + [f], s')
    requires f < g <= s.N() && forall c :: f < c < g ==> !FreeIn(s', c)
    ensures Picked(s, cs + [f], g, s.N())
    ensures g < s.N() && FreeIn(s', g) ==> FreeIn(s, g)
  {
    forall c | f < c < s.N() ensures FreeIn(s, c) <==> FreeIn(s', c) {
      assert c !in cs + [f];
      FreenessKept(s, cs + [f], s', c);
    }
    PickFree(s, cs, f, g);
  }

  lemma FreenessKept(s: State, cs: seq<CPU>, s': State, c: CPU)
    requires Sized(s) && Sized(s') && s'.N() == s.N() && s'.currExe == s.currExe && c < s.N()
    requires (forall h :: 0 <= h < |cs| ==> cs[h] < s.N()) && DispatchedOn(s, cs, s') && c !in cs
    ensures FreeIn(s, c) <==> FreeIn(s', c)
  {
    forall t | t in s.dispatched && s.dispatched[t] == c ensures On(s', t, c) {}
    forall t | t in s'.dispatched && s'.dispatched[t] == c ensures On(s, t, c) {}
  }

  /** The task at a position past n is not one that ought to run. */
  lemma PastPrefix(s: State, j: nat)
    requires Distinct(s.ready) && s.N() <= j < |s.ready|
    ensures s.ready[j] !in s.Prefix()
  {}

  /** The CPU of the task at position i has not been taken yet. */
  lemma NotTaken(s: State, cs: seq<CPU>, i: nat)
    requires Coherent(s) && Picked(s, cs, s.N(), i) && i < |s.ready| && s.ready[i] in s.dispatched
    ensures s.dispatched[s.ready[i]] !in cs
  {
    var c := s.dispatched[s.ready[i]];
    if c in cs {
      var j :| s.N() <= j < i && On(s, s.ready[j], c);
      OnePerCpu(s, s.ready[j], s.ready[i]);
    }
  }

  lemma PickHost(s: State, cs: seq<CPU>, i: nat)
    requires Coherent(s) && Picked(s, cs, s.N(), i) && i < |s.ready| && s.ready[i] in s.dispatched
    ensures Picked(s, cs + [s.dispatched[s.ready[i]]], s.N(), i + 1)
  {
    var c := s.dispatched[s.ready[i]];
    var cs' := cs + [c];
    NotTaken(s, cs, i);
    PastPrefix(s, i);
    NonPrefixIsOpen(s, s.ready[i]);
    assert TaskCoherent(s, s.ready[i]);
    assert On(s, s.ready[i], c);
    forall d | d in cs' ensures d < s.N() && (FreeIn(s, d) || HostsEarlier(s, d, i + 1)) {
      if d in cs && !FreeIn(s, d) {
        var j :| s.N() <= j < i && j < |s.ready| && On(s, s.ready[j], d);
      }
    }
  }

  lemma PassBy(s: State, cs: seq<CPU>, i: nat)
    requires Picked(s, cs, s.N(), i) && i < |s.ready| && s.ready[i] !in s.dispatched
    ensures Picked(s, cs, s.N(), i + 1)
  {
    forall d | d in cs ensures d < s.N() && (FreeIn(s, d) || HostsEarlier(s, d, i + 1)) {
      if !FreeIn(s, d) {
        var j :| s.N() <= j < i && j < |s.ready| && On(s, s.ready[j], d);
      }
    }
  }

  /** What looking at one more task of the ready queue finds. */
  lemma ScanStep(s: State, cs: seq<CPU>, s': State, i: nat)
    requires Coherent(s) && Picked(s, cs, s.N(), i) && i < |s.ready|
    requires Sized(s') && s'.N() == s.N() && s'.ready == s.ready
    requires (forall h :: 0 <= h < |cs| ==> cs[h] < s.N()) && DispatchedOn(s, cs, s')
    ensures var t := s.ready[i];
            if t in s'.dispatched
            then s'.dispatched[t] < s.N() && Picked(s, cs + [s'.dispatched[t]], s.N(), i + 1)
            else Picked(s, cs, s.N(), i + 1)
  {
    var t := s.ready[i];
    if t in s.dispatched {
      NotTaken(s, cs, i);
      assert On(s', t, s.dispatched[t]) && TaskCoherent(s, t);
      PickHost(s, cs, i);
    } else {
      assert t in s'.dispatched ==> On(s, t, s'.dispatched[t]);
      PassBy(s, cs, i);
    }
  }

  lemma UntakenOpen(s: State, cs: seq<CPU>) returns (c: CPU)
    requires Coherent(s) && Distinct(cs) && |cs| < |Waiting(s)|
    requires forall h :: 0 <= h < |cs| ==> cs[h] in Open(s)
    ensures c in Open(s) && c !in cs
  {
    OpenSize(s);
    DistinctSize(cs, |cs|);
    SubsetSize(Elements(cs), Open(s));
    c :| c in Open(s) - Elements(cs);
  }

  lemma HostOfOpen(s: State, c: CPU) returns (j: nat)
    requires Coherent(s) && c in Open(s) && !FreeIn(s, c)
    ensures s.N() <= j < |s.ready| && On(s, s.ready[j], c)
  {
    assert CpuCoherent(s, c);
    var t :| t in s.dispatched && s.dispatched[t] == c;
    assert TaskCoherent(s, t);
    j :| 0 <= j < |s.ready| && s.ready[j] == t;
  }

  /** While tasks are still waiting for a CPU and the free ones are used up, some task further down
      the queue has a CPU to give. */
  lemma EnoughToDeschedule(s: State, cs: seq<CPU>, i: nat)
    requires Coherent(s) && Picked(s, cs, s.N(), i) && |cs| < |Waiting(s)|
    ensures exists j :: i <= j < |s.ready| && s.ready[j] in s.dispatched
  {
    var c := UntakenOpen(s, cs);
    var j := HostOfOpen(s, c);
    assert j >= i;
  }

  // ------------------------------------------------------------------ the ready queue changes

  /** Arrivals keep the kernel coherent; the dispatch that follows settles it. */
  lemma WithCoherent(s: State, t: Task, h: nat)
    requires Coherent(s) && t !in s.ready && h <= |s.ready|
    ensures Coherent(With(s, t, h))
  {
    var s' := With(s, t, h);
    forall u | u in s'.dispatched ensures TaskCoherent(s', u) {
      assert TaskCoherent(s, u);
      var i :| 0 <= i < |s.ready| && s.ready[i] == u;
      assert s'.ready[if i < h then i else i + 1] == u;
    }
    forall c | 0 <= c < s.N() ensures CpuCoherent(s', c) && CpuOnTime(s', c) {
      assert CpuCoherent(s, c) && CpuOnTime(s, c);
    }
  }

  lemma WithoutPrefix(s: State, h: nat)
    requires h < |s.ready| && Distinct(s.ready)
    ensures Distinct(Without(s, h).ready)
    ensures forall u :: u in s.Prefix() && u != s.ready[h] ==> u in Without(s, h).Prefix()
    ensures forall u :: u in s.ready && u != s.ready[h] ==> u in Without(s, h).ready
    ensures s.ready[h] !in Without(s, h).ready
  {
    var s' := Without(s, h);
    forall u | u in s.Prefix() && u != s.ready[h] ensures u in s'.Prefix() {
      var i :| 0 <= i < s.K() && s.ready[i] == u;
      assert s'.ready[if i < h then i else i - 1] == u;
    }
    forall u | u in s.ready && u != s.ready[h] ensures u in s'.ready {
      var i :| 0 <= i < |s.ready| && s.ready[i] == u;
      assert s'.ready[if i < h then i else i - 1] == u;
    }
  }

  /** A task that is on no CPU leaves the ready queue. */
  lemma WithoutKeepsInv(s: State, h: nat)
    requires Inv(s) && h < |s.ready| && s.ready[h] !in s.dispatched
    ensures Inv(Without(s, h))
  {
    var s' := Without(s, h);
    WithoutPrefix(s, h);
    forall u | u in s'.dispatched ensures TaskCoherent(s', u) {
      assert TaskCoherent(s, u);
    }
    forall c | 0 <= c < s.N() ensures CpuCoherent(s', c) && CpuOnTime(s', c) {
      assert CpuCoherent(s, c) && CpuOnTime(s, c);
    }
    assert Spare(s') <= Spare(s);
    SubsetSize(Spare(s'), Spare(s));
  }

  /** The state in which p has given up its task and not yet looked for another. */
  function GivenUp(s: State, h: nat, p: CPU): State
    requires Sized(s) && h < |s.ready| && p < s.N()
  {
    var t := s.ready[h];
    Without(s, h).(currExe := s.currExe[p := None], oldExe := s.oldExe[t := p], dispatched := s.dispatched - {t})
  }

  lemma GivenUpCoherent(s: State, h: nat, p: CPU)
    requires Coherent(s) && h < |s.ready| && p < s.N() && s.currExe[p] == Some(s.ready[h])
    ensures Coherent(GivenUp(s, h, p))
    ensures forall u :: u in s.dispatched && s.dispatched[u] != p ==> On(GivenUp(s, h, p), u, s.dispatched[u])
  {
    var s' := GivenUp(s, h, p);
    assert CpuCoherent(s, p);
    WithoutPrefix(s, h);
    forall u | u in s'.dispatched ensures TaskCoherent(s', u) {
      assert TaskCoherent(s, u);
      if s.dispatched[u] == p {
        OnePerCpu(s, s.ready[h], u);
      }
    }
    forall c | 0 <= c < s.N() ensures CpuCoherent(s', c) && CpuOnTime(s', c) {
      assert CpuCoherent(s, c) && CpuOnTime(s, c);
    }
  }

  /** The task running on p leaves the ready queue and p looks for another. */
  lemma VacateKeepsInv(s: State, h: nat, p: CPU)
    requires Inv(s) && h < |s.ready| && p < s.N() && s.currExe[p] == Some(s.ready[h])
    ensures Inv(Vacate(Without(s, h), s.ready[h], p))
  {
    hide CpuOnTime, TaskCoherent;
    var s2 := GivenUp(s, h, p);
    var s' := DispatchOn(s2, p);
    GivenUpCoherent(s, h, p);
    DispatchOnCoherent(s2, p);
    DispatchOnEffect(s2, p);
    WithoutPrefix(s, h);
    assert CpuCoherent(s, p);
    forall c | c in Spare(s') ensures c in Spare(s) {
      forall u | u in s.dispatched && s.dispatched[u] == c ensures On(s', u, c) {
        assert On(s2, u, c);
      }
      HostsKept(s, s', c);
    }
    SubsetSize(Spare(s'), Spare(s));
    forall u | u in s'.dispatched && u !in s'.Prefix()
      ensures s'.dispatched[u] < s.N() && s'.begin[s'.dispatched[u]].Some?
    {
      assert On(s2, u, s'.dispatched[u]);
    }
  }

  // ------------------------------------------------------------------ the dispatch events

  lemma FirstUndispatchedIs(s: State, i: nat)
    requires i <= |s.ready|
    ensures match FirstUndispatched(s, i)
            case None => forall j :: i <= j < |s.ready| ==> s.ready[j] in s.dispatched
            case Some(t) => exists j :: i <= j < |s.ready| && s.ready[j] == t && t !in s.dispatched
                                        && forall l :: i <= l < j ==> s.ready[l] in s.dispatched
    decreases |s.ready| - i
  {
    if i < |s.ready| && s.ready[i] in s.dispatched {
      FirstUndispatchedIs(s, i + 1);
    }
  }

  lemma FreedCoherent(s: State, p: CPU)
    requires Coherent(s) && p < s.N() && s.begin[p] == Some(s.now)
    ensures var s1 := Freed(s, p);
            && Sized(s1) && s1.ready == s.ready && s1.now == s.now && s1.N() == s.N()
            && (forall t :: t in s1.dispatched ==> On(s, t, s1.dispatched[t]) && s1.dispatched[t] != p)
            && (forall t :: t in s.dispatched && s.dispatched[t] != p ==> On(s1, t, s.dispatched[t]))
            && (forall t :: t in s1.dispatched ==> TaskCoherent(s1, t))
            && (forall c :: 0 <= c < s.N() && c != p ==> CpuCoherent(s1, c) && CpuOnTime(s1, c))
            && s1.currExe[p].None? && s1.end[p].None?
  {
    var s1 := Freed(s, p);
    assert CpuCoherent(s, p);
    forall t | t in s1.dispatched ensures TaskCoherent(s1, t) && s1.dispatched[t] != p {
      assert TaskCoherent(s, t);
    }
    forall t | t in s.dispatched && s.dispatched[t] != p ensures On(s1, t, s.dispatched[t]) {
      assert TaskCoherent(s, t);
    }
    forall c | 0 <= c < s.N() && c != p ensures CpuCoherent(s1, c) && CpuOnTime(s1, c) {
      assert CpuCoherent(s, c) && CpuOnTime(s, c);
    }
  }

  lemma BeginCoherent(s: State, p: CPU, overhead: nat)
    requires Coherent(s) && p < s.N() && s.begin[p] == Some(s.now)
    ensures Coherent(BeginSwitch(Freed(s, p), p, overhead))
  {
    var s1 := Freed(s, p);
    var s' := BeginSwitch(s1, p, overhead);
    FreedCoherent(s, p);
    FirstUndispatchedIs(s1, 0);
    forall t | t in s'.dispatched ensures TaskCoherent(s', t) {
      if t in s1.dispatched {
        assert TaskCoherent(s1, t);
      }
    }
    forall c | 0 <= c < s.N() ensures CpuCoherent(s', c) && CpuOnTime(s', c) {
      if c != p {
        assert CpuCoherent(s1, c) && CpuOnTime(s1, c);
      }
    }
  }

  /** A task dispatched before p's turn comes is on another CPU, so the first task that is not
      dispatched is among those that ought to run. */
  lemma FirstUndispatchedOughtToRun(s: State, p: CPU, i: nat)
    requires Coherent(s) && p < s.N() && i <= |s.ready|
    requires forall j :: 0 <= j < i ==> s.ready[j] in s.dispatched && s.dispatched[s.ready[j]] != p
    ensures i < s.N()
  {
    var before := set j | 0 <= j < i :: s.ready[j];
    DistinctSize(s.ready, i);
    HostsSize(s, before);
    assert before * s.dispatched.Keys == before;
    SubsetSize(Hosts(s, before), Cpus(s) - {p});
    RangeSize(s.N(), Cpus(s));
  }

  lemma BeginKeepsInv(s: State, p: CPU, overhead: nat)
    requires Inv(s) && p < s.N() && s.begin[p] == Some(s.now)
    ensures Inv(BeginSwitch(Freed(s, p), p, overhead))
  {
    var s1 := Freed(s, p);
    var s' := BeginSwitch(s1, p, overhead);
    BeginCoherent(s, p, overhead);
    FreedCoherent(s, p);
    FirstUndispatchedIs(s1, 0);
    if FirstUndispatched(s1, 0).Some? {
      BeginTakesPrefix(s, p, overhead);
    } else {
      BeginFindsNothing(s, p, overhead);
    }
  }

  lemma BeginTakesPrefix(s: State, p: CPU, overhead: nat)
    requires Inv(s) && p < s.N() && s.begin[p] == Some(s.now)
    requires FirstUndispatched(Freed(s, p), 0).Some? && Coherent(BeginSwitch(Freed(s, p), p, overhead))
    ensures Settled(BeginSwitch(Freed(s, p), p, overhead))
  {
    hide CpuCoherent, CpuOnTime, TaskCoherent, Distinct;
    var s1 := Freed(s, p);
    var s' := BeginSwitch(s1, p, overhead);
    FreedCoherent(s, p);
    FirstUndispatchedIs(s1, 0);
    var t := FirstUndispatched(s1, 0).value;
    var i :| 0 <= i < |s1.ready| && s1.ready[i] == t && forall l :: 0 <= l < i ==> s1.ready[l] in s1.dispatched;
    forall j | 0 <= j < i ensures s.ready[j] in s.dispatched && s.dispatched[s.ready[j]] != p {
      assert On(s, s.ready[j], s1.dispatched[s.ready[j]]);
    }
    FirstUndispatchedOughtToRun(s, p, i);
    assert t in s'.Prefix() && On(s', t, p);
    forall c | c in Spare(s') ensures c in Spare(s) {
      assert c != p;
      forall u | u in s.dispatched && s.dispatched[u] == c ensures On(s', u, c) {
        assert On(s1, u, c);
      }
      HostsKept(s, s', c);
    }
    SubsetSize(Spare(s'), Spare(s));
    forall u | u in s'.dispatched && u !in s'.Prefix()
      ensures s'.dispatched[u] < s.N() && s'.begin[s'.dispatched[u]].Some?
    {
      assert On(s, u, s1.dispatched[u]);
    }
  }

  lemma BeginFindsNothing(s: State, p: CPU, overhead: nat)
    requires Inv(s) && p < s.N() && s.begin[p] == Some(s.now)
    requires FirstUndispatched(Freed(s, p), 0).None? && Coherent(BeginSwitch(Freed(s, p), p, overhead))
    ensures Settled(BeginSwitch(Freed(s, p), p, overhead))
  {
    var s1 := Freed(s, p);
    var s' := BeginSwitch(s1, p, overhead);
    FreedCoherent(s, p);
    FirstUndispatchedIs(s1, 0);
    forall j | 0 <= j < |s.ready| ensures s.ready[j] in s.dispatched && s.dispatched[s.ready[j]] != p {
      assert On(s, s.ready[j], s1.dispatched[s.ready[j]]);
    }
    FirstUndispatchedOughtToRun(s, p, |s.ready|);
    AllDispatchedSettled(s');
  }

  lemma AllDispatchedSettled(s: State)
    requires Coherent(s) && |s.ready| <= s.N() && forall t :: t in s.ready ==> t in s.dispatched
    ensures Settled(s)
  {
    AllReadyOughtToRun(s);
    assert Waiting(s) == {};
    OpenSize(s);
    SubsetSize(Spare(s), Open(s));
    forall u | u in s.dispatched ensures u in s.Prefix() {
      assert TaskCoherent(s, u);
    }
  }

  lemma AllReadyOughtToRun(s: State)
    requires |s.ready| <= s.N()
    ensures forall t :: t in s.ready <==> t in s.Prefix()
  {}

  lemma EndKeepsInv(s: State, p: CPU)
    requires Inv(s) && p < s.N() && s.end[p] == Some(s.now)
    ensures Inv(EndSwitch(s, p))
  {
    var s' := EndSwitch(s, p);
    assert CpuCoherent(s, p);
    forall t | t in s'.dispatched ensures TaskCoherent(s', t) {
      assert TaskCoherent(s, t);
    }
    forall c | 0 <= c < s.N() ensures CpuCoherent(s', c) && CpuOnTime(s', c) {
      assert CpuCoherent(s, c) && CpuOnTime(s, c);
    }
    assert Spare(s') == Spare(s);
  }

  /** The clock may move up to the earliest queued event. */
  predicate MayAdvance(s: State, t: int)
    requires Sized(s)
  {
    && s.now <= t
    && (forall c :: 0 <= c < s.N() ==> s.begin[c].Some? ==> t <= s.begin[c].value)
    && (forall c :: 0 <= c < s.N() ==> s.end[c].Some? ==> t <= s.end[c].value)
  }

  lemma AdvanceKeepsInv(s: State, t: int)
    requires Inv(s) && MayAdvance(s, t)
    ensures Inv(s.(now := t))
  {
    var s' := s.(now := t);
    forall u | u in s'.dispatched ensures TaskCoherent(s', u) {
      assert TaskCoherent(s, u);
    }
    forall c | 0 <= c < s.N() ensures CpuCoherent(s', c) && CpuOnTime(s', c) {
      assert CpuCoherent(s, c) && CpuOnTime(s, c);
    }
    assert Spare(s') == Spare(s);
  }

  // ------------------------------------------------------------------ what the invariant gives

  lemma NoneWaits(s: State)
    requires Inv(s) && Spare(s) == Open(s)
    ensures Waiting(s) == {}
  {
    OpenSize(s);
    assert |Spare(s)| == s.N() - s.K() + |Waiting(s)|;
  }

  /** Once no begin event is queued, the dispatched tasks are exactly those that ought to run. */
  lemma AtRestDispatched(s: State)
    requires Inv(s) && forall c :: 0 <= c < s.N() ==> s.begin[c].None?
    ensures s.dispatched.Keys == s.Prefix()
  {
    assert Spare(s) == Open(s);
    NoneWaits(s);
    forall t | t in s.Prefix() ensures t in s.dispatched {
      assert t !in Waiting(s);
    }
    forall t | t in s.dispatched ensures t in s.Prefix() {
      assert TaskCoherent(s, t);
    }
  }

  /** Once no CPU is switching either, they are exactly the running ones, each on its own CPU. */
  lemma AtRestRunning(s: State)
    requires Inv(s) && forall c :: 0 <= c < s.N() ==> s.begin[c].None? && !s.switching[c]
    ensures forall t :: t in s.Prefix() <==> exists c :: 0 <= c < s.N() && s.currExe[c] == Some(t)
    ensures forall c, d :: 0 <= c < d < s.N() && s.currExe[c].Some? ==> s.currExe[c] != s.currExe[d]
  {
    AtRestDispatched(s);
    forall t | t in s.Prefix() ensures exists c :: 0 <= c < s.N() && s.currExe[c] == Some(t) {
      assert TaskCoherent(s, t);
      assert CpuCoherent(s, s.dispatched[t]);
    }
    forall c | 0 <= c < s.N() && s.currExe[c].Some? ensures On(s, s.currExe[c].value, c) {
      assert CpuCoherent(s, c);
    }
  }
}
