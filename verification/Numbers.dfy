/** Small functions on numbers that several components share. */
module Numbers {
  function Abs(x: real): (r: real)
    ensures r >= 0.0 && (r == x || r == -x) && r >= x && r >= -x
  {
    if x < 0.0 then -x else x
  }

  function AbsInt(x: int): nat { if x < 0 then -x else x }

  function Max(a: real, b: real): real { if a >= b then a else b }

  function Min(a: real, b: real): real { if a <= b then a else b }

  function One(b: bool): nat { if b then 1 else 0 }
}
