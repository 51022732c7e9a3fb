/** Rounding to four decimals, over the real numbers. */
module Rounding {
  /** The nearest multiple, ties to the even one. */
  function NearestInt(y: real): int {
    var rest := y - y.Floor as real;
    if rest < 0.5 || (rest == 0.5 && y.Floor % 2 == 0) then y.Floor else y.Floor + 1
  }

  /** round(x, 4) */
  function Round4(x: real): real {
    NearestInt(x * 10000.0) as real / 10000.0
  }

  lemma Round4IsClose(x: real)
    ensures x - 0.00005 <= Round4(x) <= x + 0.00005
  {
    var y := x * 10000.0;
    assert y - 0.5 <= NearestInt(y) as real <= y + 0.5;
  }

  lemma Round4IsMonotone(x: real, y: real)
    requires x <= y
    ensures Round4(x) <= Round4(y)
  {
    var a, b := x * 10000.0, y * 10000.0;
    assert a <= b;
    assert NearestInt(a) <= NearestInt(b);
  }

  lemma Round4IsIdempotent(x: real)
    ensures Round4(Round4(x)) == Round4(x)
  {
    var n := NearestInt(x * 10000.0);
    assert n as real / 10000.0 * 10000.0 == n as real;
    assert NearestInt(n as real) == n;
  }
}
