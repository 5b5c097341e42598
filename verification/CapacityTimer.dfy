/** The linear clock by which servers account for budget and virtual time. */
module CapacityTimers {

  /** A clock that, while running, moves `der` per tick. */
  datatype Clock = Clock(lastTime: int, value: real, running: bool, der: real)
  {
    function Value(now: int): real {
      if running then value + (now - lastTime) as real * der else value
    }

    function Started(now: int, speed: real): Clock {
      this.(lastTime := now, running := true, der := speed)
    }

    function Stopped(now: int): Clock {
      this.(value := Value(now), running := false)
    }

    /** How long from now until the clock reaches v, cut to a whole tick. */
    function Intercept(v: int, now: int): int
      requires running && der != 0.0
    {
      ((v as real - Value(now)) / der).Floor
    }
  }

  /** Starting, stopping and restarting at any speed never makes the clock jump. */
  lemma ClockIsContinuous(c: Clock, now: int, speed: real)
    ensures c.Stopped(now).Value(now) == c.Value(now)
    ensures c.Stopped(now).Started(now, speed).Value(now) == c.Value(now)
    ensures c.running ==> c.Value(now + 1) == c.Value(now) + c.der
  {
    if c.running {
      assert (now + 1 - c.lastTime) as real * c.der == (now - c.lastTime) as real * c.der + c.der;
    }
  }

  /** Until the intercept with v, a clock that runs down stays at or above v; one tick later it is below. */
  lemma InterceptIsExact(c: Clock, now: int, v: int, delta: int)
    requires c.running && c.der < 0.0
    requires delta == c.Intercept(v, now)
    ensures v as real <= c.Value(now + delta)
    ensures c.Value(now + delta + 1) < v as real
    ensures v as real <= c.Value(now) <==> 0 <= delta
  {
    FloorOfQuotient(v as real - c.Value(now), c.der, delta);
    Moved(c, now, delta);
    Moved(c, now, delta + 1);
    assert c.Value(now + (delta + 1)) < v as real;
  }

  lemma FloorOfQuotient(y: real, der: real, delta: int)
    requires der < 0.0 && delta == (y / der).Floor
    ensures (delta + 1) as real * der < y <= delta as real * der
    ensures y <= 0.0 <==> 0 <= delta
  {
    var x := y / der;
    assert x * der == y;
    AntitoneScale(delta as real, x, der);
    AntitoneScale(x, (delta + 1) as real, der);
    AntitoneScale(0.0, x, der);
  }

  lemma Moved(c: Clock, now: int, dt: int)
    requires c.running
    ensures c.Value(now + dt) == c.Value(now) + dt as real * c.der
  {
    assert (now + dt - c.lastTime) as real == (now - c.lastTime) as real + dt as real;
    Spread((now - c.lastTime) as real, dt as real, c.der);
  }

  lemma Spread(a: real, b: real, c: real)
    ensures (a + b) * c == a * c + b * c
  {}

  lemma AntitoneScale(a: real, b: real, c: real)
    requires c < 0.0
    ensures a <= b <==> b * c <= a * c
    ensures a < b <==> b * c < a * c
  {}

  class CapacityTimer {
    var lastTime: int
    var value: real
    var running: bool
    var der: real

    ghost function View(): Clock
      reads this
    {
      Clock(lastTime, value, running, der)
    }

    constructor ()
      ensures View() == Clock(0, 0.0, false, 1.0)
    {
      lastTime, value, running, der := 0, 0.0, false, 1.0;
    }

    method Start(speed: real, now: int)
      requires !running
      modifies this
      ensures View() == old(View()).Started(now, speed)
    {
      der := speed;
      lastTime := now;
      running := true;
    }

    method Stop(now: int) returns (v: real)
      requires running
      modifies this
      ensures View() == old(View()).Stopped(now) && v == old(View()).Value(now)
    {
      value := value + (now - lastTime) as real * der;
      running := false;
      v := value;
    }

    function GetValue(now: int): (v: real)
      reads this
      ensures v == View().Value(now)
    {
      if running then value + (now - lastTime) as real * der else value
    }

    /** How long from now until the clock reaches v. */
    function GetIntercept(v: int, now: int): (delta: int)
      requires running && der != 0.0
      reads this
      ensures delta == View().Intercept(v, now)
      ensures der < 0.0 ==> v as real <= View().Value(now + delta) && View().Value(now + delta + 1) < v as real
    {
      var delta := ((v as real - GetValue(now)) / der).Floor;
      assert der < 0.0 ==> v as real <= View().Value(now + delta) && View().Value(now + delta + 1) < v as real by {
        if der < 0.0 {
          InterceptIsExact(View(), now, v, delta);
        }
      }
      delta
    }

    method SetValue(v: real)
      requires !running
      modifies this
      ensures View() == old(View()).(value := v)
    {
      value := v;
    }
  }
}
