/** Integer widths, outcomes and finite sums shared by every contract model. */
module Common {

  const U32_MAX := 0xFFFF_FFFF
  const U64_MAX := 0xFFFF_FFFF_FFFF_FFFF
  const U128_MAX := 0xFFFF_FFFF_FFFF_FFFF_FFFF_FFFF_FFFF_FFFF
  const I128_MAX := 0x7FFF_FFFF_FFFF_FFFF_FFFF_FFFF_FFFF_FFFF
  const I128_MIN := -0x8000_0000_0000_0000_0000_0000_0000_0000

  type uint32 = x: int | 0 <= x <= U32_MAX
  type uint64 = x: int | 0 <= x <= U64_MAX
  type uint128 = x: int | 0 <= x <= U128_MAX
  type int128 = x: int | I128_MIN <= x <= I128_MAX

  /** An account or contract address. Only equality and the host's total order matter. */
  type Address = nat

  datatype Option<+T> = None | Some(value: T)

  /** The outcome of an entry point. The host rolls storage back on `Err`. */
  datatype Result<+T, +E> = Ok(value: T) | Err(error: E) {
    predicate IsFailure() {
      Err?
    }

    function PropagateFailure<U>(): Result<U, E>
      requires Err?
    {
      Err(error)
    }

    function Extract(): T
      requires Ok?
    {
      value
    }
  }

  /** `Need` guards an entry point: the error is returned when the condition fails. */
  datatype Guard<+E> = Pass | Fail(error: E) {
    predicate IsFailure() {
      Fail?
    }

    function PropagateFailure<U>(): Result<U, E>
      requires Fail?
    {
      Err(error)
    }
  }

  function Need<E>(condition: bool, error: E): Guard<E> {
    if condition then Pass else Fail(error)
  }

  /** What a caller of an imperative entry point sees: on success the storage the
      specification computed, on failure the storage it started from. */
  ghost predicate Committed<S, E>(pre: S, spec: Result<S, E>, post: S, r: Result<(), E>) {
    match spec
    case Ok(s) => post == s && r == Ok(())
    case Err(e) => post == pre && r == Err(e)
  }

  /** The storage left behind by a specification outcome. */
  function Settled<S, E>(pre: S, spec: Result<S, E>): S {
    match spec
    case Ok(s) => s
    case Err(_) => pre
  }

  function Min(a: int, b: int): int {
    if a <= b then a else b
  }

  function Max(a: int, b: int): int {
    if a <= b then b else a
  }

  predicate FitsI128(x: int) {
    I128_MIN <= x <= I128_MAX
  }

  /** Two's-complement wrap-around of an unchecked i128 operation. */
  function WrapI128(x: int): int128 {
    (x - I128_MIN) % (U128_MAX + 1) + I128_MIN
  }

  /** Wrapping returns the i128 congruent to the exact result: itself when it fits, else another one. */
  lemma WrapIsExactWhenItFits(x: int)
    ensures WrapI128(x) == x <==> FitsI128(x)
    ensures (WrapI128(x) - x) % (U128_MAX + 1) == 0
  {
    var q := (x - I128_MIN) / (U128_MAX + 1);
    assert WrapI128(x) - x == (-q) * (U128_MAX + 1);
  }

  /** `x as u128` for an i128 value. */
  function AsU128(x: int128): (r: uint128) {
    if x < 0 then x + U128_MAX + 1 else x
  }

  function SatAddU128(a: uint128, b: uint128): uint128 {
    Min(a + b, U128_MAX)
  }

  function SatMulU128(a: uint128, b: uint128): (r: uint128)
    ensures r <= a * b
    ensures a * b <= U128_MAX ==> r == a * b
  {
    assert 0 <= a * b;
    Min(a * b, U128_MAX)
  }

  function SatAddI128(a: int128, b: int128): int128 {
    Max(I128_MIN, Min(a + b, I128_MAX))
  }

  function SatSub(a: nat, b: nat): nat {
    if a < b then 0 else a - b
  }

  /** Division truncating toward zero, as on the source's signed integers. */
  function TruncDiv(a: int, b: int): int
    requires b > 0
  {
    if a >= 0 then a / b else -((-a) / b)
  }

  /** `a * b / b` bounds for the floored quotient. */
  lemma FloorBounds(a: nat, b: nat)
    requires b > 0
    ensures a / b * b <= a < a / b * b + b
  {
    assert a == a / b * b + a % b;
  }

  predicate Distinct<T(==)>(s: seq<T>) {
    forall i, j :: 0 <= i < j < |s| ==> s[i] != s[j]
  }

  /** The list without any occurrence of `x`, in the same order. */
  function Without<T(==)>(s: seq<T>, x: T): seq<T> {
    if s == [] then []
    else if s[|s| - 1] == x then Without(s[..|s| - 1], x)
    else Without(s[..|s| - 1], x) + [s[|s| - 1]]
  }

  lemma {:induction false} WithoutMembers<T(!new)>(s: seq<T>, x: T)
    ensures forall y :: y in Without(s, x) <==> y in s && y != x
  {
    if s != [] {
      WithoutMembers(s[..|s| - 1], x);
    }
  }

  lemma {:induction false} WithoutDistinct<T(!new)>(s: seq<T>, x: T)
    requires Distinct(s)
    ensures Distinct(Without(s, x))
    ensures |Without(s, x)| == |s| - (if x in s then 1 else 0)
  {
    if s != [] {
      WithoutMembers(s[..|s| - 1], x);
      WithoutDistinct(s[..|s| - 1], x);
      var rest := Without(s[..|s| - 1], x);
      assert s[|s| - 1] !in s[..|s| - 1];
      forall i, j | 0 <= i < j < |Without(s, x)|
        ensures Without(s, x)[i] != Without(s, x)[j]
      {
        assert j == |rest| ==> rest[i] in rest;
      }
    }
  }

  /** The sum of a finite map's values. */
  ghost function SumMap<K>(m: map<K, int>): int
    decreases |m|
  {
    if m == map[] then 0
    else
      var k :| k in m;
      assert |m - {k}| < |m| by { assert (m - {k}).Keys == m.Keys - {k}; }
      m[k] + SumMap(m - {k})
  }

  lemma {:induction false} SumMapSplit<K>(m: map<K, int>, k: K)
    requires k in m
    ensures SumMap(m) == m[k] + SumMap(m - {k})
    decreases |m|
  {
    var c :| c in m && SumMap(m) == m[c] + SumMap(m - {c});
    if c != k {
      assert |m - {c}| < |m| && |m - {k}| < |m| by {
        assert (m - {c}).Keys == m.Keys - {c} && (m - {k}).Keys == m.Keys - {k};
      }
      SumMapSplit(m - {c}, k);
      SumMapSplit(m - {k}, c);
      assert m - {c} - {k} == m - {k} - {c};
    }
  }

  lemma SumMapUpdate<K>(m: map<K, int>, k: K, v: int)
    ensures SumMap(m[k := v]) == SumMap(m) - (if k in m then m[k] else 0) + v
  {
    SumMapSplit(m[k := v], k);
    if k in m {
      SumMapSplit(m, k);
      assert m[k := v] - {k} == m - {k};
    } else {
      assert m[k := v] - {k} == m;
    }
  }

  lemma SumMapRemove<K>(m: map<K, int>, k: K)
    ensures SumMap(m - {k}) == SumMap(m) - (if k in m then m[k] else 0)
  {
    if k in m {
      SumMapSplit(m, k);
    } else {
      assert m - {k} == m;
    }
  }

  lemma {:induction false} SumMapAtLeast<K>(m: map<K, int>, k: K)
    requires k in m
    requires forall x :: x in m ==> m[x] >= 0
    ensures SumMap(m) >= m[k]
    decreases |m|
  {
    SumMapSplit(m, k);
    SumMapNonNegative(m - {k});
  }

  lemma {:induction false} SumMapNonNegative<K>(m: map<K, int>)
    requires forall x :: x in m ==> m[x] >= 0
    ensures SumMap(m) >= 0
    decreases |m|
  {
    if m != map[] {
      var k :| k in m;
      assert |m - {k}| < |m| by { assert (m - {k}).Keys == m.Keys - {k}; }
      SumMapSplit(m, k);
      SumMapNonNegative(m - {k});
    }
  }
}
