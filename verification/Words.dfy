/** Registers as 32 bits, the lowest first, and the numbers that their fields hold. */
module Words {
  import opened Rounding

  const BITS: nat := 32

  type Word = w: seq<bool> | |w| == BITS witness seq(BITS, _ => false)

  function And(a: Word, b: Word): Word { seq(BITS, i requires 0 <= i < BITS => a[i] && b[i]) }

  function Or(a: Word, b: Word): Word { seq(BITS, i requires 0 <= i < BITS => a[i] || b[i]) }

  function Not(a: Word): Word { seq(BITS, i requires 0 <= i < BITS => !a[i]) }

  function ShiftLeft(a: Word, n: nat): Word {
    seq(BITS, i requires 0 <= i < BITS => i >= n && a[i - n])
  }

  function ShiftRight(a: Word, n: nat): Word {
    seq(BITS, i requires 0 <= i < BITS => i + n < BITS && a[i + n])
  }

  /** The bits from l up to, not including, h. */
  function Mask(l: nat, h: nat): Word {
    seq(BITS, i requires 0 <= i < BITS => l <= i < h)
  }

  /** The lowest n bits of a number. */
  function Bits(x: nat, n: nat): (b: seq<bool>)
    ensures |b| == n
  {
    if n == 0 then [] else [x % 2 == 1] + Bits(x / 2, n - 1)
  }

  function Number(b: seq<bool>): nat {
    if b == [] then 0 else (if b[0] then 1 else 0) + 2 * Number(b[1..])
  }

  function Encode(x: nat): Word { Bits(x, BITS) }

  /** A bit of a number is what its power of two leaves odd. */
  lemma {:induction false} BitIs(x: nat, n: nat, i: nat)
    requires i < n
    ensures Bits(x, n)[i] <==> x / Pow2(i) % 2 == 1
  {
    if i > 0 {
      BitIs(x / 2, n - 1, i - 1);
      assert Bits(x, n)[i] == Bits(x / 2, n - 1)[i - 1];
      HalveTwice(x, Pow2(i - 1));
    }
  }

  /** The bits of a field, from its place on, are those of the number put there. */
  lemma FieldBits(w: Word, shift: nat, width: nat, x: nat, i: nat)
    requires shift + width <= BITS && x < Pow2(width) && i < width
    ensures SetField(w, shift, width, x)[shift + i] <==> x / Pow2(i) % 2 == 1
  {
    hide Bits, Pow2;
    BitIs(x, BITS, i);
  }

  lemma {:induction false} NumberOfBits(x: nat, n: nat)
    requires x < Pow2(n)
    ensures Number(Bits(x, n)) == x
  {
    if n > 0 {
      NumberOfBits(x / 2, n - 1);
      assert Bits(x, n)[1..] == Bits(x / 2, n - 1);
    }
  }

  /** A number of few bits has no others. */
  lemma {:induction false} HighBits(x: nat, k: nat, n: nat)
    requires x < Pow2(k) && k <= n
    ensures forall i :: k <= i < n ==> !Bits(x, n)[i]
    decreases n
  {
    if n > 0 {
      if k > 0 {
        HighBits(x / 2, k - 1, n - 1);
        forall i | k <= i < n
          ensures !Bits(x, n)[i]
        {
          assert Bits(x, n)[i] == Bits(x / 2, n - 1)[i - 1];
        }
      } else {
        HighBits(0, 0, n - 1);
        forall i | 0 <= i < n
          ensures !Bits(x, n)[i]
        {
          assert i > 0 ==> Bits(x, n)[i] == Bits(0, n - 1)[i - 1];
        }
      }
    }
  }

  /** A word with the width bits from shift on replaced by a number. */
  function SetField(w: Word, shift: nat, width: nat, x: nat): Word {
    Or(And(w, Not(Mask(shift, shift + width))), ShiftLeft(Encode(x), shift))
  }

  /** The number in the width bits from shift on. */
  function GetField(w: Word, shift: nat, width: nat): nat {
    Number(And(ShiftRight(w, shift), Mask(0, width)))
  }

  /** A field holds what was put there, and no bit outside it changes. */
  lemma FieldRoundTrip(w: Word, shift: nat, width: nat, x: nat)
    requires shift + width <= BITS && x < Pow2(width)
    ensures GetField(SetField(w, shift, width, x), shift, width) == x
    ensures forall i :: 0 <= i < BITS && !(shift <= i < shift + width) ==> SetField(w, shift, width, x)[i] == w[i]
  {
    hide Bits, Number, Pow2;
    HighBits(x, width, BITS);
    Pow2Grows(width, BITS);
    NumberOfBits(x, BITS);
    assert And(ShiftRight(SetField(w, shift, width, x), shift), Mask(0, width)) == Encode(x);
  }

  /** Words that agree on a field have the same number there. */
  lemma SameField(v: Word, w: Word, shift: nat, width: nat)
    requires forall i :: shift <= i < shift + width && i < BITS ==> v[i] == w[i]
    ensures GetField(v, shift, width) == GetField(w, shift, width)
  {
    hide Number;
    assert And(ShiftRight(v, shift), Mask(0, width)) == And(ShiftRight(w, shift), Mask(0, width));
  }
}
