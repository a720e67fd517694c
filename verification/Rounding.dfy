/** Python's `round` on reals: to the nearest multiple, a tie to the even one. */
module Rounding {
  function Half(y: real): int {
    var f := y.Floor;
    var d := y - f as real;
    if d < 0.5 || (d == 0.5 && f % 2 == 0) then f else f + 1
  }

  function Round2(x: real): real { Half(x * 100.0) as real / 100.0 }
  function Round4(x: real): real { Half(x * 10000.0) as real / 10000.0 }
  function Round10(x: real): real { Half(x * 10000000000.0) as real / 10000000000.0 }

  /** To the nearest whole number, a tie to the even one. */
  lemma NearestEven(y: real)
    ensures var h := Half(y);
      y - 0.5 <= h as real <= y + 0.5 && (h as real == y - 0.5 || h as real == y + 0.5 ==> h % 2 == 0)
  { }

  lemma HalfRises(x: real, y: real)
    requires x <= y
    ensures Half(x) <= Half(y)
  { }

  lemma RoundRises(x: real, y: real)
    requires x <= y
    ensures Round2(x) <= Round2(y)
    ensures Round4(x) <= Round4(y)
    ensures Round10(x) <= Round10(y)
  {
    HalfRises(x * 100.0, y * 100.0);
    HalfRises(x * 10000.0, y * 10000.0);
    HalfRises(x * 10000000000.0, y * 10000000000.0);
    Shrinks(Half(x * 100.0), Half(y * 100.0), 100.0);
    Shrinks(Half(x * 10000.0), Half(y * 10000.0), 10000.0);
    Shrinks(Half(x * 10000000000.0), Half(y * 10000000000.0), 10000000000.0);
  }

  lemma Shrinks(a: int, b: int, scale: real)
    requires a <= b && scale > 0.0
    ensures a as real / scale <= b as real / scale
  { }
}
