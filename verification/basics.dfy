/** Small shared pieces: optional values, results, and where an index falls in
    a ring. */
module Basics {
  datatype Option<+T> = None | Some(value: T)

  datatype Result<+T, +E> = Ok(value: T) | Err(error: E)

  function Min(a: int, b: int): int { if a < b then a else b }

  function Max(a: int, b: int): int { if a < b then b else a }

  /** The place after `place` in a ring of `n`. */
  function Wrap(place: nat, n: nat): nat {
    if place + 1 == n then 0 else place + 1
  }

  /** The place absolute index `j` falls in: where a cursor that wraps is
      after `j` steps. */
  function Place(j: nat, n: nat): (place: nat)
    requires n > 0
    ensures place < n
  {
    if j == 0 then 0 else Wrap(Place(j - 1, n), n)
  }

  lemma {:induction false} FirstLap(j: nat, n: nat)
    requires j < n
    ensures Place(j, n) == j
  {
    if j > 0 { FirstLap(j - 1, n); }
  }

  /** One lap on is the same place. */
  lemma {:induction false} SamePlace(j: nat, n: nat)
    requires n > 0
    ensures Place(j + n, n) == Place(j, n)
  {
    if j == 0 {
      FirstLap(n - 1, n);
    } else {
      SamePlace(j - 1, n);
    }
  }

  /** Two indices less than a lap apart are in different places. */
  lemma {:induction false} DifferentPlaces(a: nat, b: nat, n: nat)
    requires n > 0 && a < b < a + n
    ensures Place(a, n) != Place(b, n)
  {
    if a == 0 {
      FirstLap(b, n);
    } else {
      DifferentPlaces(a - 1, b - 1, n);
    }
  }

  /** Every index is, place for place, one index of the lap that starts at
      `from`. */
  lemma {:induction false} OnThisLap(c: nat, from: nat, n: nat) returns (j: nat)
    requires n > 0 && c <= from
    ensures from <= j < from + n && Place(j, n) == Place(c, n)
    decreases from - c
  {
    if c + n <= from {
      SamePlace(c, n);
      j := OnThisLap(c + n, from, n);
    } else if c == from {
      j := c;
    } else {
      SamePlace(c, n);
      j := c + n;
    }
  }
}
