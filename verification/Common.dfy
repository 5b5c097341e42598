/** What the models of several components share. */
module Common {

  datatype Option<+T> = None | Some(value: T)

  type Task = nat

  /** C++ integer division, which truncates toward zero. */
  function TruncDiv(a: int, b: int): (r: int)
    requires b >= 1
    ensures a >= 0 ==> r == a / b
    ensures a < 0 ==> r <= 0 && a <= r * b < a + b
  {
    if a >= 0 then a / b else -((-a) / b)
  }
}
