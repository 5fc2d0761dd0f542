/** A value or nothing, where the source has nil. */
module Options {
  datatype Option<+T> = None | Some(value: T)
}

/**
 Stream versions and the optimistic concurrency checks made with them.

 A version is a 32-bit unsigned integer: every conversion from a length, every
 addition and every subtraction wraps around at 2^32.
 */
module Versions {
  const WRAP: nat := 0x1_0000_0000

  type Version = v: nat | v < 0x1_0000_0000

  /** Conversion of a length to a version: the remainder by 2^32, without dividing. */
  function ToVersion(n: nat): Version {
    if n < 0x1_0000_0000 then n else ToVersion(n - 0x1_0000_0000)
  }

  function Plus(v: Version, n: nat): Version {
    ToVersion(v + n)
  }

  function Minus(v: Version, n: nat): Version {
    var m := ToVersion(n);
    if m <= v then v - m else v + 0x1_0000_0000 - m
  }

  lemma {:induction false} VersionIsRemainder(n: nat)
    ensures ToVersion(n) == n % 0x1_0000_0000
  {
    if n >= 0x1_0000_0000 {
      VersionIsRemainder(n - 0x1_0000_0000);
    }
  }

  /** Lengths that differ by a multiple of 2^32. */
  predicate Congruent(n: nat, m: nat) {
    (n - m) % 0x1_0000_0000 == 0
  }

  datatype Check = CheckAny | CheckExact(version: Version)

  datatype ConflictError = ConflictError(expected: Version, actual: Version)

  /** Adding lengths one after the other and converting once give the same version. */
  lemma {:induction false} PlusToVersion(n: nat, k: nat)
    ensures Plus(ToVersion(n), k) == ToVersion(n + k)
  {
    if n >= 0x1_0000_0000 {
      PlusToVersion(n - 0x1_0000_0000, k);
    }
  }

  /** Below 2^32 a length is its own version. */
  lemma {:induction false} SmallVersion(n: nat)
    requires n < WRAP
    ensures ToVersion(n) == n
  {
  }

  /** Two additions are one. */
  lemma {:induction false} PlusPlus(v: Version, n: nat, k: nat)
    ensures Plus(Plus(v, n), k) == Plus(v, n + k)
  {
    PlusToVersion(v + n, k);
  }

  /** A subtraction undoes the addition of the same length, whatever wrapped. */
  lemma {:induction false} MinusPlus(v: Version, n: nat)
    ensures Minus(Plus(v, n), n) == v
    ensures Plus(Minus(v, n), n) == v
  {
    if n >= 0x1_0000_0000 {
      var k := n - 0x1_0000_0000;
      MinusPlus(v, k);
      assert Plus(v, n) == Plus(v, k) && Minus(v, n) == Minus(v, k);
      assert Plus(Minus(v, k), n) == Plus(Minus(v, k), k);
    } else {
      assert v + n >= 0x1_0000_0000 ==> Plus(v, n) == ToVersion(v + n - 0x1_0000_0000) == v + n - 0x1_0000_0000;
      var m := Minus(v, n);
      assert m + n >= 0x1_0000_0000 ==> Plus(m, n) == ToVersion(m + n - 0x1_0000_0000) == m + n - 0x1_0000_0000;
    }
  }

  /** Two lengths have the same version exactly when they differ by a multiple of 2^32. */
  lemma {:induction false} SameVersion(n: nat, m: nat)
    ensures ToVersion(n) == ToVersion(m) <==> Congruent(n, m)
    ensures n < WRAP && m < WRAP ==> (ToVersion(n) == ToVersion(m) <==> n == m)
  {
    VersionIsRemainder(n);
    VersionIsRemainder(m);
  }
}
