/**
 * `GetBitMask` (io_mesh_urho/prefabs.py, copied verbatim in urho_scene_prefab.py): a list of
 * layer flags becomes an integer with bit `i` set for every true flag `i`, except that the
 * full eight-bit mask is written as -1.
 */
module BitMask {

  const MaxBitmaskBits: nat := 8
  const MaxBitmaskValue: nat := 255

  /** `1 << i`. */
  function Pow2(i: nat): (p: nat)
    ensures p >= 1
  {
    if i == 0 then 1 else 2 * Pow2(i - 1)
  }

  /** Bit `i` of `n`. */
  function Bit(n: nat, i: nat): bool {
    if i == 0 then n % 2 == 1 else Bit(n / 2, i - 1)
  }

  /** Python's `a | b` on non-negative integers, one binary digit at a time. */
  function Or(a: nat, b: nat): nat
    decreases a + b
  {
    if a == 0 then b
    else if b == 0 then a
    else 2 * Or(a / 2, b / 2) + (if a % 2 == 1 || b % 2 == 1 then 1 else 0)
  }

  lemma {:induction false} BitZero(i: nat)
    ensures !Bit(0, i)
  {
    if i > 0 {
      BitZero(i - 1);
    }
  }

  /** `Or` sets exactly the bits set in either operand. */
  lemma {:induction false} OrBit(a: nat, b: nat, i: nat)
    ensures Bit(Or(a, b), i) == (Bit(a, i) || Bit(b, i))
    decreases a + b
  {
    if a == 0 {
      BitZero(i);
    } else if b == 0 {
      BitZero(i);
    } else if i > 0 {
      var q := Or(a / 2, b / 2);
      var r := if a % 2 == 1 || b % 2 == 1 then 1 else 0;
      assert (2 * q + r) / 2 == q;
      OrBit(a / 2, b / 2, i - 1);
    }
  }

  /** Below `1 << n`, no bit from `n` on is set. */
  lemma {:induction false} BitHigh(a: nat, n: nat, j: nat)
    requires a < Pow2(n) && j >= n
    ensures !Bit(a, j)
  {
    if n == 0 {
      BitZero(j);
    } else {
      BitHigh(a / 2, n - 1, j - 1);
    }
  }

  /** Adding `1 << n` to a number below it sets bit `n` and keeps the others. */
  lemma {:induction false} BitAddHigh(a: nat, n: nat, j: nat)
    requires a < Pow2(n)
    ensures Bit(a + Pow2(n), j) == (Bit(a, j) || j == n)
  {
    if n == 0 {
      if j > 0 {
        BitZero(j - 1);
      }
    } else if j > 0 {
      assert (a + Pow2(n)) / 2 == a / 2 + Pow2(n - 1);
      BitAddHigh(a / 2, n - 1, j - 1);
    }
  }

  /** OR-ing `1 << i` into a number below it is adding it. */
  lemma {:induction false} OrHigh(a: nat, i: nat)
    requires a < Pow2(i)
    ensures Or(a, Pow2(i)) == a + Pow2(i)
  {
    if i > 0 && a > 0 {
      OrHigh(a / 2, i - 1);
    }
  }

  /** Two numbers with the same bits are equal. */
  lemma {:induction false} BitsDetermine(a: nat, b: nat)
    requires forall i: nat :: Bit(a, i) == Bit(b, i)
    ensures a == b
    decreases a + b
  {
    if a != 0 || b != 0 {
      assert Bit(a, 0) == Bit(b, 0);
      forall i: nat ensures Bit(a / 2, i) == Bit(b / 2, i) {
        assert Bit(a, i + 1) == Bit(b, i + 1);
      }
      if a / 2 + b / 2 < a + b {
        BitsDetermine(a / 2, b / 2);
      }
    }
  }

  /** The mask before the -1 rule: `1 << i` for every true flag `i`. */
  function LayerBits(layers: seq<bool>): nat {
    if layers == [] then 0
    else LayerBits(layers[..|layers| - 1]) + (if layers[|layers| - 1] then Pow2(|layers| - 1) else 0)
  }

  lemma {:induction false} LayerBitsBound(layers: seq<bool>)
    ensures LayerBits(layers) < Pow2(|layers|)
  {
    if layers != [] {
      LayerBitsBound(layers[..|layers| - 1]);
    }
  }

  /** Bit `i` of the mask is set exactly when flag `i` exists and is true. */
  lemma {:induction false} LayerBitsBit(layers: seq<bool>, i: nat)
    ensures Bit(LayerBits(layers), i) == (i < |layers| && layers[i])
  {
    if layers == [] {
      BitZero(i);
    } else {
      var front := layers[..|layers| - 1];
      var n := |front|;
      LayerBitsBound(front);
      LayerBitsBit(front, i);
      if layers[n] {
        BitAddHigh(LayerBits(front), n, i);
      }
      if i >= n {
        BitHigh(LayerBits(front), n, i);
      }
    }
  }

  /** The value `GetBitMask` returns. */
  function MaskValue(layers: seq<bool>): int {
    if LayerBits(layers) == MaxBitmaskValue then -1 else LayerBits(layers)
  }

  /** `GetBitMask`. */
  method GetBitMask(layers: seq<bool>) returns (mask: int)
    ensures mask == MaskValue(layers)
  {
    var m: nat := 0;
    var i := 0;
    while i < |layers|
      invariant 0 <= i <= |layers|
      invariant m == LayerBits(layers[..i])
    {
      LayerBitsBound(layers[..i]);
      if layers[i] {
        OrHigh(m, i);
      }
      m := Or(m, if layers[i] then Pow2(i) else 0);
      assert layers[..i + 1][..i] == layers[..i];
      i := i + 1;
    }
    assert layers[..i] == layers;
    mask := if m == MaxBitmaskValue then -1 else m;
  }

  lemma {:induction false} AllOnes(k: nat, i: nat)
    ensures Bit(Pow2(k) - 1, i) == (i < k)
  {
    if k == 0 {
      BitZero(i);
    } else if i > 0 {
      assert (Pow2(k) - 1) / 2 == Pow2(k - 1) - 1;
      AllOnes(k - 1, i - 1);
    }
  }

  /**
   * The result is -1 exactly when the first eight flags are true and every later one is false;
   * otherwise it is the mask itself, whose bits are the flags.
   */
  lemma MaskMinusOne(layers: seq<bool>)
    ensures MaskValue(layers) == -1 <==> |layers| >= MaxBitmaskBits && forall i :: 0 <= i < |layers| ==> layers[i] == (i < 8)
    ensures MaskValue(layers) != -1 ==> forall i: nat :: Bit(MaskValue(layers), i) == (i < |layers| && layers[i])
  {
    assert Pow2(8) - 1 == MaxBitmaskValue;
    forall i: nat ensures Bit(LayerBits(layers), i) == (i < |layers| && layers[i]) && Bit(MaxBitmaskValue, i) == (i < 8) {
      LayerBitsBit(layers, i);
      AllOnes(8, i);
    }
    if |layers| >= MaxBitmaskBits && forall i :: 0 <= i < |layers| ==> layers[i] == (i < 8) {
      BitsDetermine(LayerBits(layers), MaxBitmaskValue);
    }
    if LayerBits(layers) == MaxBitmaskValue {
      assert Bit(LayerBits(layers), 7);
    }
  }

  /** The flags are the bits of `v`, and `v` is not the full mask: the result is `v`. */
  lemma MaskFromBits(layers: seq<bool>, v: nat)
    requires v != MaxBitmaskValue
    requires forall i: nat :: Bit(v, i) == (i < |layers| && layers[i])
    ensures MaskValue(layers) == v
  {
    forall i: nat ensures Bit(LayerBits(layers), i) == Bit(v, i) {
      LayerBitsBit(layers, i);
    }
    BitsDetermine(LayerBits(layers), v);
  }

  /** Eight true flags give -1, eight false flags give 0, only the first flag gives 1, nine true flags give 511. */
  lemma MaskCorners()
    ensures MaskValue([true, true, true, true, true, true, true, true]) == -1
    ensures MaskValue([false, false, false, false, false, false, false, false]) == 0
    ensures MaskValue([true, false, false, false, false, false, false, false]) == 1
    ensures MaskValue([true, true, true, true, true, true, true, true, true]) == 511
  {
    MaskMinusOne([true, true, true, true, true, true, true, true]);
    var none := [false, false, false, false, false, false, false, false];
    var first := [true, false, false, false, false, false, false, false];
    var nine := [true, true, true, true, true, true, true, true, true];
    forall i: nat ensures Bit(0, i) == (i < |none| && none[i]) {
      BitZero(i);
    }
    MaskFromBits(none, 0);
    forall i: nat ensures Bit(1, i) == (i < |first| && first[i]) {
      AllOnes(1, i);
    }
    MaskFromBits(first, 1);
    assert Pow2(9) - 1 == 511;
    forall i: nat ensures Bit(511, i) == (i < |nine| && nine[i]) {
      AllOnes(9, i);
    }
    MaskFromBits(nine, 511);
  }
}
