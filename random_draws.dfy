/**
 * The rejection loops that draw the question's random numbers
 * (`randIntNonZero` and `randIntNonZeroArray` in
 * templateCourses/dynamics/questions/rbmOmega/server.py). The random source
 * is an oracle: `draws` lists, in order, the values the random calls return,
 * and a requires says each lies in the range the call draws from. A loop
 * ends in one of three ways: it accepts a value, it raises `ValueError`
 * (an empty range, a zero step, a negative size), or it has used up its
 * draws and is still looping.
 */
module RandomDraws {
  import opened Options

  /** How a rejection loop stands once it has read its draws. */
  datatype Outcome<T> = Accepted(value: T) | Pending | RaisesValueError

  /** An accepted value, or a loop still waiting for one. */
  function Settle<T>(o: Option<T>): Outcome<T> {
    match o
    case Some(v) => Accepted(v)
    case None => Pending
  }

  /** `random.randint(a, b)` returns an integer of [a, b]. */
  predicate InClosedRange(x: int, a: int, b: int) {
    a <= x <= b
  }

  /** `random.randrange(a, b, step)` raises `ValueError` for a zero step or an empty range. */
  predicate EmptyRandRange(a: int, b: int, step: int) {
    step == 0 || (step > 0 && a >= b) || (step < 0 && a <= b)
  }

  /** `random.randrange(a, b, step)` returns a + k*step for some k >= 0, strictly before b. */
  predicate InRandRange(x: int, a: int, b: int, step: int)
    requires step != 0
  {
    if step > 0 then a <= x < b && (x - a) % step == 0
    else b < x <= a && (a - x) % (-step) == 0
  }

  predicate AllZero(r: seq<int>) {
    forall i :: 0 <= i < |r| ==> r[i] == 0
  }

  /** The value `randIntNonZero` accepts from these draws: the first non-zero one. */
  function FirstNonZero(draws: seq<int>): (x: Option<int>)
    ensures x.Some? ==> x.value != 0 && x.value in draws
    ensures x.None? <==> AllZero(draws)
  {
    if |draws| == 0 then None
    else if draws[0] != 0 then Some(draws[0])
    else
      assert forall i :: 1 <= i < |draws| ==> draws[i] == draws[1..][i - 1];
      FirstNonZero(draws[1..])
  }

  /** The vector one pass of the loop of `randIntNonZeroArray` builds from the next n draws. */
  function Batch(n: int, draws: seq<int>): (v: seq<int>)
    requires (n == 2 || n == 3) && |draws| >= n
    ensures |v| == 3
  {
    if n == 2 then [draws[0], draws[1], 0] else draws[..3]
  }

  /** The vector `randIntNonZeroArray(n, ...)` accepts from these draws: the first batch that is not all zero. */
  function FirstNonZeroBatch(n: int, draws: seq<int>): (v: Option<seq<int>>)
    requires n == 2 || n == 3
    ensures v.Some? ==> |v.value| == 3 && !AllZero(v.value)
    decreases |draws|
  {
    if |draws| < n then None
    else if !AllZero(Batch(n, draws)) then Some(Batch(n, draws))
    else FirstNonZeroBatch(n, draws[n..])
  }

  /** `randIntNonZero(a, b)`: draw from [a, b] until the draw is non-zero. */
  method RandIntNonZero(a: int, b: int, draws: seq<int>) returns (x: Outcome<int>, used: nat)
    requires forall k :: 0 <= k < |draws| ==> InClosedRange(draws[k], a, b)
    ensures x == if a > b then RaisesValueError else Settle(FirstNonZero(draws))
    ensures used <= |draws|
    ensures forall k :: 0 <= k < used - 1 ==> draws[k] == 0
    ensures x.Accepted? ==> 0 < used && x.value == draws[used - 1]
    ensures x.Accepted? ==> x.value != 0 && a <= x.value <= b
    ensures a == 0 && b == 0 ==> x == Pending
  {
    var r := 0;
    used := 0;
    while r == 0
      invariant used <= |draws|
      invariant r == (if used == 0 then 0 else draws[used - 1])
      invariant forall k :: 0 <= k < used - 1 ==> draws[k] == 0
      invariant r == 0 ==> FirstNonZero(draws) == FirstNonZero(draws[used..])
      invariant r != 0 ==> FirstNonZero(draws) == Some(r)
      decreases |draws| - used
    {
      if a > b {
        // `randint` over an empty range
        return RaisesValueError, used;
      }
      if used == |draws| {
        return Pending, used;
      }
      assert draws[used..][1..] == draws[used + 1..];
      r := draws[used];
      used := used + 1;
    }
    x := Accepted(r);
  }

  /**
   * `randIntNonZeroArray(n, a, b, step)`: for n = 2, draw two components and
   * put a zero third; for n = 3, draw three; repeat while the vector is all
   * zero. A negative n makes `np.zeros` raise; for any other n the vector
   * stays the zero vector and the loop never ends.
   */
  method RandIntNonZeroArray(n: int, a: int, b: int, step: int, draws: seq<int>)
    returns (r: Outcome<seq<int>>, used: nat)
    requires step != 0 ==> forall k :: 0 <= k < |draws| ==> InRandRange(draws[k], a, b, step)
    ensures n < 0 ==> r == RaisesValueError
    ensures n >= 0 && n != 2 && n != 3 ==> r == Pending && used == 0
    ensures (n == 2 || n == 3) && EmptyRandRange(a, b, step) ==> r == RaisesValueError && used == 0
    ensures (n == 2 || n == 3) && !EmptyRandRange(a, b, step) ==> r == Settle(FirstNonZeroBatch(n, draws))
    ensures used <= |draws|
    ensures forall k :: 0 <= k < used && (!r.Accepted? || k < used - n) ==> draws[k] == 0
    ensures r.Accepted? ==> (n == 2 || n == 3) && used >= n
    ensures r.Accepted? && n == 2 ==> r.value == [draws[used - 2], draws[used - 1], 0]
    ensures r.Accepted? && n == 3 ==> r.value == draws[used - 3..used]
    ensures r.Accepted? ==> |r.value| == 3 && !AllZero(r.value)
    ensures r.Accepted? ==> forall i :: 0 <= i < n ==> InRandRange(r.value[i], a, b, step)
  {
    if n < 0 {
      // `np.zeros` with a negative size
      return RaisesValueError, 0;
    }
    var v: seq<int> := seq(n, _ => 0);
    used := 0;
    while AllZero(v)
      invariant used <= |draws|
      invariant forall k :: 0 <= k < used && (AllZero(v) || k < used - n) ==> draws[k] == 0
      invariant !AllZero(v) ==> used > 0
      invariant n != 2 && n != 3 ==> used == 0
      invariant used > 0 ==> (n == 2 || n == 3) && used >= n && !EmptyRandRange(a, b, step)
      invariant used > 0 && n == 2 ==> v == [draws[used - 2], draws[used - 1], 0]
      invariant used > 0 && n == 3 ==> v == draws[used - 3..used]
      invariant (n == 2 || n == 3) && AllZero(v) ==> FirstNonZeroBatch(n, draws) == FirstNonZeroBatch(n, draws[used..])
      invariant (n == 2 || n == 3) && !AllZero(v) ==> FirstNonZeroBatch(n, draws) == Some(v)
      decreases |draws| - used
    {
      if n == 2 || n == 3 {
        if EmptyRandRange(a, b, step) {
          // `randrange` over an empty range or with a zero step
          return RaisesValueError, used;
        }
        if |draws| - used < n {
          return Pending, used;
        }
        assert draws[used..][n..] == draws[used + n..];
        if n == 2 {
          v := [draws[used], draws[used + 1], 0];
          assert AllZero(v) ==> v[0] == 0 && v[1] == 0;
        } else {
          v := draws[used..used + 3];
          assert AllZero(v) ==> v[0] == 0 && v[1] == 0 && v[2] == 0;
        }
        assert v == Batch(n, draws[used..]);
        used := used + n;
      } else {
        // the vector stays zero: the source loops forever
        return Pending, used;
      }
    }
    r := Accepted(v);
  }
}
