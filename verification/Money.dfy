/** Money as exact numbers, and the two ways a column can hold them. */
module Money {

  /** `Exact` keeps the number that was saved. `Decimal2` is a `decimal(10, 2)` column, which
      keeps the nearest multiple of 0.01 and sends halves away from zero. */
  datatype Column = Exact | Decimal2

  function RoundCents(x: real): real {
    if x >= 0.0 then (x * 100.0 + 0.5).Floor as real / 100.0
    else -((-x * 100.0 + 0.5).Floor as real / 100.0)
  }

  function Keep(c: Column, x: real): real {
    if c.Exact? then x else RoundCents(x)
  }

  /** The largest error one save can introduce. */
  function Error(c: Column): real {
    if c.Exact? then 0.0 else 0.005
  }

  function Abs(x: real): real {
    if x >= 0.0 then x else -x
  }

  lemma KeepIsClose(c: Column, x: real)
    ensures Abs(Keep(c, x) - x) <= Error(c)
  {
  }

  /** Rounding takes the nearest cent and sends halves away from zero. */
  lemma RoundsToNearestCent(x: real, k: int)
    ensures x >= 0.0 ==> (RoundCents(x) == k as real / 100.0 <==> k as real - 0.5 <= x * 100.0 < k as real + 0.5)
    ensures RoundCents(-x) == -RoundCents(x)
  {
    var f := (x * 100.0 + 0.5).Floor;
    assert f as real <= x * 100.0 + 0.5 < f as real + 1.0;
    if x >= 0.0 && k as real - 0.5 <= x * 100.0 < k as real + 0.5 {
      assert f == k;
    }
  }

  lemma CentsAreKept(k: int)
    ensures RoundCents(k as real / 100.0) == k as real / 100.0
  {
    if k >= 0 {
      assert (k as real / 100.0 * 100.0 + 0.5).Floor == k;
    } else {
      assert (-(k as real / 100.0) * 100.0 + 0.5).Floor == -k;
    }
  }

  /** Saving a value that has been read back changes nothing. */
  lemma KeepIsIdempotent(c: Column, x: real)
    ensures Keep(c, Keep(c, x)) == Keep(c, x)
  {
    if x >= 0.0 {
      CentsAreKept((x * 100.0 + 0.5).Floor);
    } else {
      CentsAreKept(-(-x * 100.0 + 0.5).Floor);
    }
  }

  lemma KeepIsMonotone(c: Column, x: real, y: real)
    requires x <= y
    ensures Keep(c, x) <= Keep(c, y)
  {
    if 0.0 <= x {
      FloorIsMonotone(x * 100.0 + 0.5, y * 100.0 + 0.5);
    } else if y < 0.0 {
      FloorIsMonotone(-y * 100.0 + 0.5, -x * 100.0 + 0.5);
    }
  }

  lemma FloorIsMonotone(x: real, y: real)
    requires x <= y
    ensures x.Floor <= y.Floor
  {
  }
}
