/**
 * The logical bit-vector of the monitor: bit i holds the level of the i-th
 * monitored line. The C operators that build and compare it (`<<`, `|`, `^`)
 * are written out on unbounded naturals; every value the monitor builds stays
 * below 2^31, so it fits the 32-bit `unsigned` of the program.
 */
module BitVector {

  /** A line's level as the driver reports it: 0 (asserted, the lines are
      active low) or 1 (normal). */
  type Level = b: nat | b <= 1

  /** The most lines one vector may hold. `1 << n_lines` is evaluated in a
      32-bit `int`, so the shift count must stay below 32. */
  const MaxLines: nat := 31

  function Pow2(k: nat): (r: nat)
    ensures r >= 1
  {
    if k == 0 then 1 else 2 * Pow2(k - 1)
  }

  lemma {:induction false} Pow2Add(a: nat, b: nat)
    ensures Pow2(a + b) == Pow2(a) * Pow2(b)
    decreases a
  {
    if a > 0 {
      Pow2Add(a - 1, b);
    }
  }

  /** A vector of MaxLines bits stays below 2^31. */
  lemma Pow2MaxLines()
    ensures Pow2(MaxLines) == 0x8000_0000
  {
    Pow2Add(10, 21);
    Pow2Add(10, 11);
    assert Pow2(10) == 1024 && Pow2(11) == 2048;
  }

  /** `(x >> i) & 1` */
  function BitAt(x: nat, i: nat): Level
  {
    if i == 0 then x % 2 else BitAt(x / 2, i - 1)
  }

  /** `x << k` */
  function Shl(x: nat, k: nat): nat
  {
    x * Pow2(k)
  }

  /** `x | y` */
  function Or(x: nat, y: nat): (r: nat)
    ensures x <= r && y <= r && r <= x + y
    decreases x + y
  {
    if x == 0 && y == 0 then 0
    else (if x % 2 == 1 || y % 2 == 1 then 1 else 0) + 2 * Or(x / 2, y / 2)
  }

  /** `x ^ y` */
  function Xor(x: nat, y: nat): (r: nat)
    ensures r == 0 <==> x == y
    decreases x + y
  {
    if x == 0 && y == 0 then 0
    else (if x % 2 != y % 2 then 1 else 0) + 2 * Xor(x / 2, y / 2)
  }

  /** The vector of n lines that all read 1: `(1 << n) - 1`. */
  function AllUp(n: nat): nat
  {
    Shl(1, n) - 1
  }

  /** The vector of a scan: bit i is levels[i]. */
  function Vector(levels: seq<Level>): nat
  {
    if levels == [] then 0 else levels[0] + 2 * Vector(levels[1..])
  }

  /** The n low bits of x, as levels. */
  function Decode(x: nat, n: nat): (levels: seq<Level>)
    ensures |levels| == n
  {
    seq(n, i requires 0 <= i < n => BitAt(x, i))
  }

  /** Every level flipped: the lines that are asserted. */
  function Complement(levels: seq<Level>): (flipped: seq<Level>)
    ensures |flipped| == |levels|
  {
    seq(|levels|, i requires 0 <= i < |levels| => 1 - levels[i])
  }

  lemma {:induction false} ZeroBits(i: nat)
    ensures BitAt(0, i) == 0
  {
    if i > 0 {
      ZeroBits(i - 1);
    }
  }

  /** `|` is bitwise: a bit of x | y is set exactly when it is set in x or in y. */
  lemma {:induction false} OrBits(x: nat, y: nat, i: nat)
    ensures BitAt(Or(x, y), i) == 1 <==> BitAt(x, i) == 1 || BitAt(y, i) == 1
    decreases i
  {
    if x == 0 && y == 0 {
      ZeroBits(i);
    } else if i > 0 {
      assert Or(x, y) / 2 == Or(x / 2, y / 2);
      OrBits(x / 2, y / 2, i - 1);
    }
  }

  /** `^` is bitwise: a bit of x ^ y is set exactly when x and y differ there. */
  lemma {:induction false} XorBits(x: nat, y: nat, i: nat)
    ensures BitAt(Xor(x, y), i) == 1 <==> BitAt(x, i) != BitAt(y, i)
    decreases i
  {
    if x == 0 && y == 0 {
      ZeroBits(i);
    } else if i > 0 {
      assert Xor(x, y) / 2 == Xor(x / 2, y / 2);
      XorBits(x / 2, y / 2, i - 1);
    }
  }

  /** A scan of n lines fits in n bits. */
  lemma {:induction false} VectorBound(levels: seq<Level>)
    ensures Vector(levels) < Pow2(|levels|)
  {
    if levels != [] {
      VectorBound(levels[1..]);
    }
  }

  /** Bit i of the vector is the level of line i. */
  lemma {:induction false} VectorBit(levels: seq<Level>, i: nat)
    requires i < |levels|
    ensures BitAt(Vector(levels), i) == levels[i]
  {
    if i > 0 {
      assert Vector(levels) / 2 == Vector(levels[1..]);
      VectorBit(levels[1..], i - 1);
    }
  }

  /** The vector loses nothing: the scan is read back from its bits. */
  lemma DecodeVector(levels: seq<Level>)
    ensures Decode(Vector(levels), |levels|) == levels
  {
    forall i | 0 <= i < |levels|
      ensures Decode(Vector(levels), |levels|)[i] == levels[i]
    {
      VectorBit(levels, i);
    }
  }

  /** Every value of n bits is the vector of the scan its bits describe. */
  lemma {:induction false} VectorDecode(x: nat, n: nat)
    requires x < Pow2(n)
    ensures Vector(Decode(x, n)) == x
  {
    if n > 0 {
      var levels := Decode(x, n);
      assert levels[1..] == Decode(x / 2, n - 1);
      VectorDecode(x / 2, n - 1);
    }
  }

  /** Two scans of equal length with equal vectors are equal. */
  lemma VectorInjective(a: seq<Level>, b: seq<Level>)
    requires |a| == |b| && Vector(a) == Vector(b)
    ensures a == b
  {
    DecodeVector(a);
    DecodeVector(b);
  }

  lemma {:induction false} VectorAppendSum(levels: seq<Level>, b: Level)
    ensures Vector(levels + [b]) == Vector(levels) + Shl(b, |levels|)
  {
    if levels != [] {
      assert (levels + [b])[1..] == levels[1..] + [b];
      VectorAppendSum(levels[1..], b);
    }
  }

  /** Or-ing a value into bits that are still clear is addition. */
  lemma {:induction false} DisjointOr(acc: nat, b: Level, i: nat)
    requires acc < Pow2(i)
    ensures Or(acc, Shl(b, i)) == acc + Shl(b, i)
  {
    if i == 0 {
      assert acc == 0;
      if b == 1 {
        assert Or(0, 1) == 1 + 2 * Or(0, 0);
      }
    } else {
      assert Shl(b, i) / 2 == Shl(b, i - 1) && Shl(b, i) % 2 == 0;
      DisjointOr(acc / 2, b, i - 1);
    }
  }

  /** One step of the scan loop: `vec |= res << i` appends line i's level. */
  lemma VectorAppend(levels: seq<Level>, b: Level)
    ensures Vector(levels + [b]) == Or(Vector(levels), Shl(b, |levels|))
  {
    VectorBound(levels);
    VectorAppendSum(levels, b);
    DisjointOr(Vector(levels), b, |levels|);
  }

  /** The all-normal reference is the vector of a scan reading 1 everywhere,
      and no other scan of the same length has that vector. */
  lemma {:induction false} AllUpExactly(levels: seq<Level>)
    ensures Vector(levels) == AllUp(|levels|) <==> forall i :: 0 <= i < |levels| ==> levels[i] == 1
  {
    if levels != [] {
      AllUpExactly(levels[1..]);
      assert AllUp(|levels|) == 1 + 2 * AllUp(|levels| - 1);
      if forall i :: 0 <= i < |levels| ==> levels[i] == 1 {
        assert forall i :: 0 <= i < |levels| - 1 ==> levels[1..][i] == 1;
      }
      if Vector(levels) == AllUp(|levels|) {
        forall i | 0 <= i < |levels|
          ensures levels[i] == 1
        {
          if i > 0 {
            assert levels[i] == levels[1..][i - 1];
          }
        }
      }
    }
  }

  /** A vector is zero exactly when every line reads 0. */
  lemma {:induction false} VectorZero(levels: seq<Level>)
    ensures Vector(levels) == 0 <==> forall i :: 0 <= i < |levels| ==> levels[i] == 0
  {
    if levels != [] {
      VectorZero(levels[1..]);
      if Vector(levels) == 0 {
        assert forall i :: 0 <= i < |levels| - 1 ==> levels[i + 1] == levels[1..][i];
      }
    }
  }

  /** `current ^ all_up` is the vector of the complemented scan. */
  lemma {:induction false} XorAllUp(levels: seq<Level>)
    ensures Xor(Vector(levels), AllUp(|levels|)) == Vector(Complement(levels))
  {
    if levels != [] {
      var v, a := Vector(levels), AllUp(|levels|);
      assert a == 1 + 2 * AllUp(|levels| - 1);
      assert Complement(levels)[1..] == Complement(levels[1..]);
      XorAllUp(levels[1..]);
      assert Xor(v, a) == (if v % 2 != a % 2 then 1 else 0) + 2 * Xor(v / 2, a / 2);
    }
  }

  /** The active mask `current ^ all_up` has bit i set exactly when line i
      is asserted; it is zero exactly when the scan is all normal. */
  lemma ActiveMaskOfScan(levels: seq<Level>)
    ensures var mask := Xor(Vector(levels), AllUp(|levels|));
      && mask < Pow2(|levels|)
      && (mask == 0 <==> Vector(levels) == AllUp(|levels|))
      && forall i :: 0 <= i < |levels| ==> (BitAt(mask, i) == 1 <==> levels[i] == 0)
  {
    var mask := Xor(Vector(levels), AllUp(|levels|));
    var flipped := Complement(levels);
    XorAllUp(levels);
    VectorBound(flipped);
    VectorZero(flipped);
    AllUpExactly(levels);
    forall i | 0 <= i < |levels|
      ensures BitAt(mask, i) == 1 <==> levels[i] == 0
    {
      VectorBit(flipped, i);
    }
  }
}
