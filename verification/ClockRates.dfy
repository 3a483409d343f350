/** The rounding of the dividers and fractional PLLs of drivers/clk/v1/mtk_clk.c.

    All numbers are unsigned words of 32 bits; the products inside the PLL are of 64. */
module ClockRates {
  import opened Rounding
  import opened Words

  const WORD: nat := 0x1_0000_0000   // 2^32

  // ---------------------------------------------------------------- linear dividers

  function Clamp(d: nat, maxd: nat): nat {
    if maxd < (if d < 1 then 1 else d) then maxd else if d < 1 then 1 else d
  }

  /** The divider that the code picks for a rate, in 32 bits. */
  function CalcDiv(width: nat, rate: nat, parent: nat): (d: nat)
    requires rate < WORD && parent < WORD
  {
    var r := if rate == 0 then 1 else rate;
    var maxd := if FloorDiv(WORD - 1, r) < Pow2(width) then FloorDiv(WORD - 1, r) else Pow2(width);
    Clamp(FloorDiv((parent + r - 1) % WORD, r), maxd)
  }

  /** The rate that a divider gives, in 32 bits. */
  function DivRate(parent: nat, d: nat): nat
    requires d > 0
  {
    FloorDiv((parent + d - 1) % WORD, d)
  }

  /** What the code should pick: the quotient rounded up, within 1 and 2^width. */
  function WantedDiv(width: nat, rate: nat, parent: nat): (d: nat)
    requires rate > 0
    ensures d > 0
  {
    Clamp(CeilDiv(parent, rate), Pow2(width))
  }

  /** Unless that is cut off, it is the smallest divider whose rate, rounded up, does not
      exceed the request; and when it is cut off, no divider of the field comes closer. */
  lemma WantedIsSmallest(width: nat, rate: nat, parent: nat, e: nat)
    requires rate > 0 && 0 < e
    ensures CeilDiv(parent, rate) <= Pow2(width) ==>
              (CeilDiv(parent, e) <= rate <==> WantedDiv(width, rate, parent) <= e)
    ensures CeilDiv(parent, rate) > Pow2(width) && e <= Pow2(width) ==>
              rate < CeilDiv(parent, WantedDiv(width, rate, parent)) <= CeilDiv(parent, e)
  {
    hide CeilDiv, Pow2;
    CeilAtMost(parent, e, rate);
    CeilAtMost(parent, rate, e);
    var d := WantedDiv(width, rate, parent);
    CeilAtMost(parent, rate, d);
    CeilAtMost(parent, d, rate);
    CeilAtMost(parent, d, CeilDiv(parent, e));
    CeilBounds(parent, e);
    if e <= d {
      MulMono(e, d, CeilDiv(parent, e));
    }
  }

  /** The sum in the division wraps when it passes 32 bits; then 1 is picked, which is right
      only for a rate that is not below that of the parent. */
  lemma CalcDivIsWanted(width: nat, rate: nat, parent: nat)
    requires 0 < rate < WORD && parent < WORD && width > 0
    ensures CalcDiv(width, rate, parent) == WantedDiv(width, rate, parent)
       <==> parent + rate <= WORD || parent <= rate
    ensures parent + rate > WORD ==> CalcDiv(width, rate, parent) == 1
  {
    hide FloorDiv, Pow2;
    FloorAtLeast(WORD - 1, rate, 1);
    TwoOrMore(width);
    if parent + rate <= WORD {
      FloorGrows(parent + rate - 1, WORD - 1, rate);
    } else {
      SmallQuotient(parent + rate - 1 - WORD, rate);
      CeilAtMost(parent, rate, 1);
    }
  }

  /** An example: from 2496 MHz, 1900 MHz is not reached undivided, and dividing by two would do. */
  lemma WrongDivider()
    ensures CalcDiv(8, 1900000000, 2496000000) == 1 && WantedDiv(8, 1900000000, 2496000000) == 2
  {
    assert Pow2(8) == 256;
  }

  lemma TwoOrMore(n: nat)
    requires n > 0
    ensures Pow2(n) >= 2
  {
    Pow2Grows(1, n);
  }

  function RoundDiv(width: nat, rate: nat, parent: nat): nat
    requires rate < WORD && parent < WORD
  {
    var d := CalcDiv(width, rate, parent);
    if d > 0 then DivRate(parent, d) else 0
  }

  lemma WantedRange(width: nat, rate: nat, parent: nat)
    requires rate > 0
    ensures 1 <= WantedDiv(width, rate, parent) <= Pow2(width)
    ensures CeilDiv(parent, rate) <= Pow2(width) ==> CeilDiv(parent, rate) <= WantedDiv(width, rate, parent)
    ensures WantedDiv(width, rate, parent) <= CeilDiv(parent, rate) || WantedDiv(width, rate, parent) == 1
  {
    hide CeilDiv, Pow2;
  }

  /** The rate of a divider is positive, not above the parent's, and needs no more dividing. */
  lemma RateOfDiv(parent: nat, d: nat)
    requires parent > 0 && d > 0
    ensures 0 < CeilDiv(parent, d) <= parent && CeilDiv(parent, CeilDiv(parent, d)) <= d
  {
    hide CeilDiv;
    var r := CeilDiv(parent, d);
    CeilAtMost(parent, d, 0);
    CeilAtMost(parent, d, parent);
    MulMono(1, d, parent);
    CeilAtMost(parent, d, r);
    CeilAtMost(parent, r, d);
  }

  /** Any divider from there up to d gives the same rate. */
  lemma SameRate(parent: nat, d: nat, d': nat)
    requires parent > 0 && d > 0 && 0 < CeilDiv(parent, d)
    requires 0 < d' <= d && CeilDiv(parent, CeilDiv(parent, d)) <= d'
    ensures CeilDiv(parent, d') == CeilDiv(parent, d)
  {
    hide CeilDiv;
    var r, r' := CeilDiv(parent, d), CeilDiv(parent, d');
    CeilAtMost(parent, r, d');
    CeilAtMost(parent, d', r);
    CeilBounds(parent, d');
    MulMono(d', d, r');
    CeilAtMost(parent, d, r');
  }

  /** Asking for the rate that a divider gives: a divider with the same rate, not larger, and
      the same one if it was not cut off. */
  lemma WantedAgain(width: nat, rate: nat, parent: nat)
    requires rate > 0 && parent > 0
    ensures var d := WantedDiv(width, rate, parent);
      var r := CeilDiv(parent, d);
      0 < r <= parent
      && var d' := WantedDiv(width, r, parent);
         CeilDiv(parent, d') == r && d' <= d && (CeilDiv(parent, rate) <= Pow2(width) ==> d' == d)
  {
    hide CeilDiv, WantedDiv, Pow2;
    var d := WantedDiv(width, rate, parent);
    WantedRange(width, rate, parent);
    RateOfDiv(parent, d);
    var d' := WantedDiv(width, CeilDiv(parent, d), parent);
    WantedRange(width, CeilDiv(parent, d), parent);
    SameRate(parent, d, d');
    WantedIsSmallest(width, rate, parent, d);
    WantedIsSmallest(width, rate, parent, d');
  }

  /** A rate is enough for a parent's rate and a divider when the divider does not ask for
      more; the smallest such rate is the one that a divider stands for. */
  ghost predicate Enough(parent: nat, d: nat, rate: nat) { parent <= rate * d }

  /** In 32 bits a divider gives that smallest rate unless the sum wraps; then it gives 0. */
  lemma DivRateIs(parent: nat, d: nat)
    requires 0 < d && parent < WORD
    ensures DivRate(parent, d) == CeilDiv(parent, d) <==> parent == 0 || parent + d <= WORD
    ensures parent == 0 || parent + d <= WORD ==> forall q: nat :: Enough(parent, d, q) <==> DivRate(parent, d) <= q
    ensures 0 < parent && parent + d > WORD ==> DivRate(parent, d) == 0
  {
    hide CeilDiv, FloorDiv;
    if parent > 0 && parent + d > WORD {
      WrappedSum(parent, d);
      CeilAtMost(parent, d, 0);
    } else {
      PlainSum(parent, d);
      forall q: nat ensures Enough(parent, d, q) <==> DivRate(parent, d) <= q {
        CeilAtMost(parent, d, q);
      }
    }
  }

  lemma WrappedSum(n: nat, d: nat)
    requires 0 < n < WORD && 0 < d && n + d > WORD
    ensures FloorDiv((n + d - 1) % WORD, d) == 0
  {
    SmallQuotient((n + d - 1) % WORD, d);
  }

  lemma PlainSum(n: nat, d: nat)
    requires 0 < d && n < WORD && (n == 0 || n + d <= WORD)
    ensures FloorDiv((n + d - 1) % WORD, d) == CeilDiv(n, d)
  {
    if n == 0 {
      SmallQuotient((d - 1) % WORD, d);
      SmallQuotient(d - 1, d);
    }
  }

  /** Rounding a rate that was rounded already: as long as the divider picked does not make
      its own sum wrap, it changes nothing exactly when the sum with the parent's rate stays in
      32 bits or the clock is not divided, and the divider shrinks only where it had been cut
      off; else the rate is 0 and stays 0. */
  lemma RoundDivAgain(width: nat, rate: nat, parent: nat)
    requires 0 < rate < WORD && 0 < parent < WORD && width > 0
    ensures var d, r := CalcDiv(width, rate, parent), RoundDiv(width, rate, parent);
      && 0 < d
      && (parent + d > WORD ==> r == 0 && RoundDiv(width, r, parent) == r)
      && (parent + d <= WORD ==>
            && r == CeilDiv(parent, d) && 0 < r <= parent
            && (RoundDiv(width, r, parent) == r <==> parent + r <= WORD || r == parent)
            && (parent + r <= WORD ==> CalcDiv(width, r, parent) <= d)
            && (parent + r <= WORD && CeilDiv(parent, rate) <= Pow2(width) ==> CalcDiv(width, r, parent) == d))
  {
    hide CeilDiv, CalcDiv, Clamp, DivRate, WantedDiv, Pow2;
    CalcDivIsWanted(width, rate, parent);
    WantedRange(width, rate, parent);
    var d := CalcDiv(width, rate, parent);
    if parent + rate > WORD {
      WholeRate(width, parent);
    } else if parent + d > WORD {
      DivRateIs(parent, d);
      NoneWanted(width, rate, parent);
      DivRateIs(parent, CalcDiv(width, 0, parent));
    } else {
      RoundWantedAgain(width, rate, parent);
    }
  }

  /** The parent's own rate needs no dividing, whether its sum wraps or not. */
  lemma WholeRate(width: nat, parent: nat)
    requires 0 < parent < WORD && width > 0
    ensures DivRate(parent, 1) == CeilDiv(parent, 1) == parent
    ensures CalcDiv(width, parent, parent) == 1 && RoundDiv(width, parent, parent) == parent
  {
    hide CeilDiv, CalcDiv, Clamp, DivRate, WantedDiv, Pow2;
    DivRateIs(parent, 1);
    CeilAtMost(parent, 1, parent);
    CeilAtMost(parent, 1, parent - 1);
    CeilAtMost(parent, parent, 1);
    CalcDivIsWanted(width, parent, parent);
    WantedRange(width, parent, parent);
  }

  /** A request for nothing gets the largest divider of all. */
  lemma NoneWanted(width: nat, rate: nat, parent: nat)
    requires 0 < rate < WORD && 0 < parent < WORD && width > 0 && parent + rate <= WORD
    ensures CalcDiv(width, rate, parent) <= CalcDiv(width, 0, parent)
  {
    hide CeilDiv, FloorDiv, Pow2;
    CalcDivIsWanted(width, rate, parent);
    CalcDivIsWanted(width, 1, parent);
    CeilAtMost(parent, 1, parent - 1);
    CeilAtMost(parent, rate, parent);
    MulMono(1, rate, parent);
  }

  /** What that means for a promise that is not 0, whatever was asked for. */
  lemma RoundDivTwice(width: nat, rate: nat, parent: nat)
    requires rate < WORD && parent < WORD && width > 0
    ensures var r := RoundDiv(width, rate, parent);
      && r <= parent
      && (r > 0 ==> (RoundDiv(width, r, parent) == r <==> parent + r <= WORD || r == parent))
  {
    hide CalcDiv, DivRate, CeilDiv, Pow2;
    if parent == 0 {
      NothingDivided(CalcDiv(width, rate, parent));
    } else {
      AskedForNothing(width, parent);
      RoundDivAgain(width, if rate == 0 then 1 else rate, parent);
    }
  }

  lemma NothingDivided(d: nat)
    ensures d > 0 ==> DivRate(0, d) == 0
  {
    hide FloorDiv;
    if d > 0 {
      SmallQuotient((d - 1) % WORD, d);
    }
  }

  lemma AskedForNothing(width: nat, parent: nat)
    requires parent < WORD
    ensures CalcDiv(width, 0, parent) == CalcDiv(width, 1, parent) && RoundDiv(width, 0, parent) == RoundDiv(width, 1, parent)
  {
  }

  lemma RoundWantedAgain(width: nat, rate: nat, parent: nat)
    requires 0 < rate < WORD && 0 < parent < WORD && width > 0 && parent + rate <= WORD
    requires 0 < CalcDiv(width, rate, parent) && parent + CalcDiv(width, rate, parent) <= WORD
    ensures var d, r := CalcDiv(width, rate, parent), RoundDiv(width, rate, parent);
      && r == CeilDiv(parent, d) && 0 < r <= parent
      && (RoundDiv(width, r, parent) == r <==> parent + r <= WORD || r == parent)
      && (parent + r <= WORD ==> CalcDiv(width, r, parent) <= d)
      && (parent + r <= WORD && CeilDiv(parent, rate) <= Pow2(width) ==> CalcDiv(width, r, parent) == d)
  {
    hide CeilDiv, CalcDiv, Clamp, DivRate, WantedDiv, Pow2;
    CalcDivIsWanted(width, rate, parent);
    WantedAgain(width, rate, parent);
    var d := CalcDiv(width, rate, parent);
    DivRateIs(parent, d);
    var r := CeilDiv(parent, d);
    CalcDivIsWanted(width, r, parent);
    WantedRange(width, r, parent);
    DivRateIs(parent, CalcDiv(width, r, parent));
    if parent + r > WORD {
      CeilAtMost(parent, 1, parent);
      CeilAtMost(parent, 1, parent - 1);
    }
  }

  // ---------------------------------------------------------------- fractional PLLs

  const INTEGER_BITS: nat := 7

  datatype Pll = Pll(fmax: nat, fmin: nat, pcwbits: nat, pcwibits: nat) {

    function Fmin(): nat { if fmin == 0 then 1000000000 else fmin }

    function Ibits(): nat { if pcwibits == 0 then INTEGER_BITS else pcwibits }

    function Frac(): nat { if pcwbits > Ibits() then pcwbits - Ibits() else 0 }

    function Target(freq: nat): nat { if freq > fmax then fmax else freq }

    /** The parent's rate, the limits and the request keep all sums within 32 bits and the
        multiplier within its field. */
    ghost predicate Fits(freq: nat, fin: nat) {
      && 0 < fin && Ibits() <= pcwbits <= 31
      && fmax < WORD && 2 * Fmin() + 16 <= WORD
      && 2 * Fmin() <= fin * Pow2(Ibits()) && Target(freq) < fin * Pow2(Ibits())
    }
  }

  /** The first shift from v on that lifts f to fmin; 5 when none below does. */
  function Shift(f: nat, fmin: nat, v: nat): (r: nat)
    requires v <= 5
    ensures v <= r <= 5
    ensures r < 5 ==> f * Pow2(r) >= fmin
    ensures forall u :: v <= u < r ==> f * Pow2(u) < fmin
    decreases 5 - v
  {
    if v == 5 || f * Pow2(v) >= fmin then v else Shift(f, fmin, v + 1)
  }

  /** The post divider that a shift stands for: the loop leaves the last one tried. */
  function PostDiv(shift: nat): nat {
    Pow2(if shift < 5 then shift else 4)
  }

  /** A multiplier for a VCO rate of f shifted up: k fractional bits, rounded down, in 32 bits. */
  function Pcw(f: nat, shift: nat, k: nat, fin: nat): nat
    requires fin > 0
  {
    FloorDiv(f * Pow2(shift) * Pow2(k), fin) % WORD
  }

  /** The multiplier and the post divider for a request. */
  function Values(p: Pll, freq: nat, fin: nat): (nat, nat)
    requires fin > 0
  {
    var f := p.Target(freq);
    var shift := Shift(f, p.Fmin(), 0);
    (Pcw(f, shift, p.Frac(), fin), PostDiv(shift))
  }

  /** The loop that finds them. */
  method CalcValues(p: Pll, freq: nat, fin: nat) returns (pcw: nat, postdiv: nat)
    requires fin > 0
    ensures (pcw, postdiv) == Values(p, freq, fin)
  {
    hide Pow2, Pcw;
    var fmin := p.Fmin();
    var f := freq;
    if f > p.fmax {
      f := p.fmax;
    }
    var val := 0;
    postdiv := 0;
    while val < 5
      invariant 0 <= val <= 5
      invariant Shift(f, fmin, 0) == Shift(f, fmin, val)
      invariant val > 0 ==> postdiv == Pow2(val - 1)
    {
      postdiv := Pow2(val);
      if f * postdiv >= fmin {
        break;
      }
      val := val + 1;
    }
    pcw := Pcw(f, val, p.Frac(), fin);
  }

  /** In plain numbers: the post divider is the least power of two that lifts the request, cut
      off at fmax, to fmin, and the multiplier is then the quotient rounded down.  When not even
      16 does, the post divider is 16 and yet the multiplier is that of 32. */
  lemma ValuesAre(p: Pll, freq: nat, fin: nat)
    requires fin > 0
    ensures var (pcw, postdiv) := Values(p, freq, fin);
      var f := if freq > p.fmax then p.fmax else freq;
      var low := if p.fmin == 0 then 1000000000 else p.fmin;
      var whole := if p.pcwibits == 0 then 7 else p.pcwibits;
      var k := Pow2(if p.pcwbits > whole then p.pcwbits - whole else 0);
      && postdiv in {1, 2, 4, 8, 16}
      && (16 * f >= low ==>
            && postdiv * f >= low && (postdiv == 1 || postdiv / 2 * f < low)
            && pcw == (f * postdiv * k / fin) % 0x1_0000_0000)
      && (16 * f < low ==> postdiv == 16 && pcw == (f * 32 * k / fin) % 0x1_0000_0000)
  {
    hide FloorDiv, Pow2, Shift, Pcw;
    FirstPowers();
    var f := p.Target(freq);
    FirstLift(f, p.Fmin());
    PcwIs(f, Shift(f, p.Fmin(), 0), p.Frac(), fin);
  }

  lemma PcwIs(f: nat, shift: nat, k: nat, fin: nat)
    requires fin > 0
    ensures Pcw(f, shift, k, fin) == (f * Pow2(shift) * Pow2(k) / fin) % 0x1_0000_0000
  {
  }

  /** Where the loop of the post divider stops. */
  lemma FirstLift(f: nat, low: nat)
    ensures var shift := Shift(f, low, 0); var d := PostDiv(shift);
      && d in {1, 2, 4, 8, 16} && Pow2(shift) == (if 16 * f >= low then d else 32)
      && (16 * f >= low ==> d * f >= low && (d == 1 || d / 2 * f < low))
      && (16 * f < low ==> d == 16)
  {
    hide Pow2, Shift;
    FirstPowers();
    var shift := Shift(f, low, 0);
    if shift > 0 {
      assert f * Pow2(shift - 1) < low;
    }
    if shift == 5 {
      assert f * Pow2(4) < low;
    }
  }

  lemma FirstPowers()
    ensures Pow2(0) == 1 && Pow2(1) == 2 && Pow2(2) == 4 && Pow2(3) == 8 && Pow2(4) == 16 && Pow2(5) == 32
  {
    assert Pow2(3) == 8;
    assert Pow2(5) == 32;
  }

  /** The rate that a multiplier and a post divider give: the product is rounded up when the
      fraction is cut off, and again when it is divided. */
  function Recalc(p: Pll, fin: nat, pcw: nat, postdiv: nat): nat
    requires postdiv > 0
  {
    var vco := fin * pcw;
    var up := FloorDiv(vco, Pow2(p.Frac())) + if p.Frac() > 0 && vco % Pow2(p.Frac()) != 0 then 1 else 0;
    FloorDiv((up % WORD + postdiv - 1) % WORD, postdiv)
  }

  function RoundPll(p: Pll, freq: nat, fin: nat): nat
    requires fin > 0
  {
    Recalc(p, fin, Values(p, freq, fin).0, Values(p, freq, fin).1)
  }

  // The same in whole numbers without a width: t is the VCO rate wanted, k the weight of the
  // integer part of the multiplier, d the post divider.

  function Multiplier(t: nat, k: nat, fin: nat): nat
    requires fin > 0
  {
    FloorDiv(t * k, fin)
  }

  function Vco(pcw: nat, k: nat, fin: nat): nat
    requires k > 0
  {
    CeilDiv(fin * pcw, k)
  }

  /** The multiplier rounds down: the VCO stays within what was wanted, by less than one step. */
  lemma VcoBound(t: nat, k: nat, fin: nat)
    requires fin > 0 && k > 0
    ensures var pcw := Multiplier(t, k, fin);
      && pcw * fin <= t * k && t * k < pcw * fin + fin
      && Vco(pcw, k, fin) <= t
      && pcw * fin <= Vco(pcw, k, fin) * k
  {
    hide FloorDiv, CeilDiv;
    var pcw := Multiplier(t, k, fin);
    FloorAtLeast(t * k, fin, pcw);
    FloorAtLeast(t * k, fin, pcw + 1);
    assert (pcw + 1) * fin == pcw * fin + fin;
    CeilAtMost(fin * pcw, k, t);
    CeilBounds(fin * pcw, k);
  }

  /** The rounded rate lies at most one step below the wanted one. */
  lemma RateBound(t: nat, k: nat, fin: nat, d: nat)
    requires fin > 0 && k > 0 && d > 0
    ensures var r := CeilDiv(Vco(Multiplier(t, k, fin), k, fin), d);
      && r <= CeilDiv(t, d) && (t - r * d) * k < fin
  {
    hide FloorDiv, CeilDiv, Multiplier, Vco;
    var vco := Vco(Multiplier(t, k, fin), k, fin);
    var r := CeilDiv(vco, d);
    VcoBound(t, k, fin);
    CeilGrows(vco, t, d);
    CeilBounds(vco, d);
    MulMono(t - r * d, t - vco, k);
    assert (t - vco) * k == t * k - vco * k;
  }

  /** With the wanted rate replaced by the rounded one, and perhaps a larger post divider, the
      rounded rate comes out again; with the same post divider, so does the multiplier. */
  lemma RateAgain(f: nat, d: nat, j: nat, k: nat, fin: nat)
    requires fin > 0 && k > 0 && d > 0 && j > 0
    ensures var pcw := Multiplier(f * d, k, fin);
      var r := CeilDiv(Vco(pcw, k, fin), d);
      && r <= f
      && CeilDiv(Vco(Multiplier(r * (d * j), k, fin), k, fin), d * j) == r
      && (j == 1 ==> Multiplier(r * d, k, fin) == pcw)
  {
    hide FloorDiv, CeilDiv, Multiplier, Vco;
    var pcw := Multiplier(f * d, k, fin);
    var r := CeilDiv(Vco(pcw, k, fin), d);
    RateCovers(f, d, k, fin);
    RateNotBelow(r, d, j, k, fin, pcw);
    GoalBound(r, k, fin, d * j);
    if j == 1 {
      MulMono(r, f, d);
      SameMultiplier(f * d, r * d, k, fin);
    }
  }

  /** The rounded rate, multiplied up again, covers what the multiplier stands for. */
  lemma RateCovers(f: nat, d: nat, k: nat, fin: nat)
    requires fin > 0 && k > 0 && d > 0
    ensures var pcw := Multiplier(f * d, k, fin);
      var r := CeilDiv(Vco(pcw, k, fin), d);
      r <= f && pcw * fin <= r * d * k
  {
    hide FloorDiv, CeilDiv, Multiplier, Vco;
    var vco := Vco(Multiplier(f * d, k, fin), k, fin);
    VcoBound(f * d, k, fin);
    CeilAtMost(vco, d, f);
    CeilBounds(vco, d);
    MulMono(vco, CeilDiv(vco, d) * d, k);
  }

  lemma SameMultiplier(t: nat, t': nat, k: nat, fin: nat)
    requires fin > 0 && k > 0 && t' <= t && Multiplier(t, k, fin) * fin <= t' * k
    ensures Multiplier(t', k, fin) == Multiplier(t, k, fin)
  {
    hide FloorDiv;
    FloorAtLeast(t' * k, fin, Multiplier(t, k, fin));
    MulMono(t', t, k);
    FloorGrows(t' * k, t * k, fin);
  }

  lemma RateNotBelow(r: nat, d: nat, j: nat, k: nat, fin: nat, pcw: nat)
    requires fin > 0 && k > 0 && d > 0 && j > 0 && pcw * fin <= r * d * k && r == CeilDiv(Vco(pcw, k, fin), d)
    ensures r <= CeilDiv(Vco(Multiplier(r * (d * j), k, fin), k, fin), d * j)
  {
    hide FloorDiv, CeilDiv, Multiplier;
    var t' := r * (d * j);
    var pcw' := Multiplier(t', k, fin);
    var vco' := Vco(pcw', k, fin);
    var r' := CeilDiv(vco', d * j);
    assert pcw * j * fin == pcw * fin * j;
    MulMono(pcw * fin, r * d * k, j);
    assert r * d * k * j == t' * k;
    assert pcw * j <= pcw' by { hide Vco; MultiplierAtLeast(t', k, fin, pcw * j); }
    VcoBound(t', k, fin);
    CeilBounds(vco', d * j);
    MulMono(pcw * j, pcw', fin);
    MulMono(vco', r' * (d * j), k);
    Reorder(r', d, j, k);
    Cancel(pcw * fin, r' * d * k, j);
    CeilAtMost(fin * pcw, k, r' * d);
    CeilAtMost(Vco(pcw, k, fin), d, r');
  }

  lemma Reorder(a: nat, b: nat, c: nat, d: nat)
    ensures a * (b * c) * d == a * b * d * c
  {
  }

  lemma MultiplierAtLeast(t: nat, k: nat, fin: nat, q: nat)
    requires fin > 0 && q * fin <= t * k
    ensures q <= Multiplier(t, k, fin)
  {
    FloorAtLeast(t * k, fin, q);
  }

  lemma Cancel(a: nat, b: nat, j: nat)
    requires j > 0 && a * j <= b * j
    ensures a <= b
  {
    if a > b {
      assert (b + 1) * j == b * j + j;
      MulMono(b + 1, a, j);
    }
  }

  /** The VCO rate wanted for a request. */
  function Wanted(p: Pll, freq: nat): nat {
    p.Target(freq) * Pow2(Shift(p.Target(freq), p.Fmin(), 0))
  }

  /** The limits keep it below both 32 bits and what the field of the multiplier can reach. */
  lemma WantedFits(p: Pll, freq: nat, fin: nat)
    requires p.Fits(freq, fin)
    ensures Wanted(p, freq) < fin * Pow2(p.Ibits())
    ensures Wanted(p, freq) + Values(p, freq, fin).1 <= WORD
    ensures 0 < Values(p, freq, fin).1 <= 16
  {
    hide Pow2, Pcw;
    var f := p.Target(freq);
    var shift := Shift(f, p.Fmin(), 0);
    PostDivRange(shift);
    if shift > 0 {
      assert f * Pow2(shift - 1) < p.Fmin();
      Doubled(f, shift);
    } else {
      PowOfNone();
      assert f * 1 == f;
    }
  }

  lemma PowOfNone()
    ensures Pow2(0) == 1
  {
  }

  lemma PostDivRange(shift: nat)
    ensures 0 < PostDiv(shift) <= 16
    ensures shift == 0 ==> PostDiv(shift) == 1
  {
    Pow2Grows(if shift < 5 then shift else 4, 4);
    assert Pow2(4) == 16;
  }

  lemma Doubled(f: nat, shift: nat)
    requires shift > 0
    ensures f * Pow2(shift) == 2 * (f * Pow2(shift - 1))
  {
  }

  /** Nothing wraps: the multiplier is the exact one and fits its field, and so is the rate. */
  lemma ValuesExact(p: Pll, freq: nat, fin: nat)
    requires p.Fits(freq, fin)
    ensures Values(p, freq, fin).0 == Multiplier(Wanted(p, freq), Pow2(p.Frac()), fin) < Pow2(p.pcwbits)
  {
    hide Pow2, FloorDiv, Shift, Wanted, Multiplier;
    WantedFits(p, freq, fin);
    var k := Pow2(p.Frac());
    MultiplierBelow(Wanted(p, freq), k, fin, Pow2(p.Ibits()));
    Pow2Add(p.Ibits(), p.Frac());
    Pow2Grows(p.pcwbits, 31);
    PowOf31();
    PcwExact(p, freq, fin);
  }

  lemma MultiplierBelow(t: nat, k: nat, fin: nat, n: nat)
    requires fin > 0 && k > 0 && t < fin * n
    ensures Multiplier(t, k, fin) < n * k
  {
    hide FloorDiv;
    MulMono(t + 1, fin * n, k);
    assert (t + 1) * k == t * k + k;
    ThreeFactors(fin, n, k);
    FloorAtLeast(t * k, fin, n * k);
  }

  lemma PcwExact(p: Pll, freq: nat, fin: nat)
    requires fin > 0 && Multiplier(Wanted(p, freq), Pow2(p.Frac()), fin) < WORD
    ensures Values(p, freq, fin).0 == Multiplier(Wanted(p, freq), Pow2(p.Frac()), fin)
  {
    hide Pow2, FloorDiv, Shift;
    SmallMod(Multiplier(Wanted(p, freq), Pow2(p.Frac()), fin), WORD);
  }

  lemma ThreeFactors(a: nat, b: nat, c: nat)
    ensures a * b * c == a * (b * c)
  {
  }

  lemma PowOf31()
    ensures Pow2(31) == 0x8000_0000
  {
    Pow2Add(16, 15);
    Pow2Add(8, 7);
    Pow2Add(8, 8);
    assert Pow2(7) == 128 && Pow2(8) == 256;
  }

  lemma SmallMod(x: nat, n: nat)
    requires x < n
    ensures x % n == x
  {
  }

  /** A rate is enough for a multiplier and a post divider when the VCO that would give it
      exactly runs no slower than the multiplier asks for. */
  ghost predicate Covers(p: Pll, fin: nat, pcw: nat, postdiv: nat, rate: nat) {
    fin * pcw <= rate * postdiv * Pow2(p.Frac())
  }

  /** The two roundings up amount to one: a multiplier and a post divider give the smallest
      rate that is enough for them, unless the sum in the last division wraps; then they give 0. */
  lemma RecalcIsSmallest(p: Pll, fin: nat, pcw: nat, postdiv: nat)
    requires postdiv > 0 && Vco(pcw, Pow2(p.Frac()), fin) < WORD
    ensures var vco := Vco(pcw, Pow2(p.Frac()), fin);
      && (vco + postdiv <= WORD || vco == 0 ==>
            && Recalc(p, fin, pcw, postdiv) == CeilDiv(vco, postdiv)
            && forall q: nat :: Covers(p, fin, pcw, postdiv, q) <==> Recalc(p, fin, pcw, postdiv) <= q)
      && (vco + postdiv > WORD && vco > 0 ==> Recalc(p, fin, pcw, postdiv) == 0)
  {
    hide Pow2, FloorDiv, CeilDiv;
    var k := Pow2(p.Frac());
    var vco := Vco(pcw, k, fin);
    RecalcDivides(p, fin, pcw, postdiv);
    if vco + postdiv > WORD && vco > 0 {
      WrappedSum(vco, postdiv);
    } else {
      PlainSum(vco, postdiv);
      forall q: nat ensures Covers(p, fin, pcw, postdiv, q) <==> Recalc(p, fin, pcw, postdiv) <= q {
        CeilAtMost(vco, postdiv, q);
        CeilAtMost(fin * pcw, k, q * postdiv);
      }
    }
  }

  lemma RecalcDivides(p: Pll, fin: nat, pcw: nat, postdiv: nat)
    requires postdiv > 0 && Vco(pcw, Pow2(p.Frac()), fin) < WORD
    ensures Recalc(p, fin, pcw, postdiv)
         == FloorDiv((Vco(pcw, Pow2(p.Frac()), fin) + postdiv - 1) % WORD, postdiv)
  {
    hide Pow2, FloorDiv;
    CeilIsFloorPlus(fin * pcw, Pow2(p.Frac()));
    if p.Frac() == 0 {
      PowOfNone();
      assert fin * pcw % 1 == 0;
    }
    SmallMod(Vco(pcw, Pow2(p.Frac()), fin), WORD);
  }

  /** What round_rate promises, in whole numbers. */
  lemma RoundExact(p: Pll, freq: nat, fin: nat)
    requires p.Fits(freq, fin)
    ensures var d, k := Values(p, freq, fin).1, Pow2(p.Frac());
      d > 0 && RoundPll(p, freq, fin) == CeilDiv(Vco(Multiplier(Wanted(p, freq), k, fin), k, fin), d)
  {
    hide Pow2, FloorDiv, CeilDiv, Wanted, Values, Multiplier, Vco, Recalc;
    var k := Pow2(p.Frac());
    WantedFits(p, freq, fin);
    ValuesExact(p, freq, fin);
    var pcw, d := Values(p, freq, fin).0, Values(p, freq, fin).1;
    VcoBound(Wanted(p, freq), k, fin);
    RecalcIsSmallest(p, fin, pcw, d);
  }

  /** A request that the post divider can serve is rounded down by less than one step of the
      multiplier.  One that is too low for it runs through the loop and gets a multiplier for
      twice the rate that the post divider divides by: about twice the request comes out. */
  lemma RoundBound(p: Pll, freq: nat, fin: nat)
    requires p.Fits(freq, fin)
    ensures var f, r, d := p.Target(freq), RoundPll(p, freq, fin), Values(p, freq, fin).1;
      && (16 * f >= p.Fmin() ==> r <= f && (f - r) * d * Pow2(p.Frac()) < fin)
      && (16 * f < p.Fmin() ==> d == 16 && r <= 2 * f && (2 * f - r) * d * Pow2(p.Frac()) < fin)
  {
    hide FloorDiv, CeilDiv, Multiplier, Vco, Values, RoundPll, Pow2, Wanted;
    var f, k, d := p.Target(freq), Pow2(p.Frac()), Values(p, freq, fin).1;
    RoundExact(p, freq, fin);
    WantedGoal(p, freq, fin);
    if 16 * f >= p.Fmin() {
      GoalBound(f, k, fin, d);
    } else {
      GoalBound(2 * f, k, fin, 16);
    }
  }

  /** The VCO rate wanted is the request times the post divider, or twice that. */
  lemma WantedGoal(p: Pll, freq: nat, fin: nat)
    requires p.Fits(freq, fin)
    ensures var f, d := p.Target(freq), Values(p, freq, fin).1;
      && fin > 0
      && (16 * f >= p.Fmin() ==> Wanted(p, freq) == f * d)
      && (16 * f < p.Fmin() ==> d == 16 && Wanted(p, freq) == 2 * f * 16)
  {
    hide Shift, Pow2, Pcw;
    ServedShift(p.Target(freq), p.Fmin());
  }

  lemma GoalBound(goal: nat, k: nat, fin: nat, d: nat)
    requires fin > 0 && k > 0 && d > 0
    ensures var r := CeilDiv(Vco(Multiplier(goal * d, k, fin), k, fin), d);
      r <= goal && (goal - r) * d * k < fin
  {
    hide FloorDiv, CeilDiv, Multiplier, Vco;
    RateBound(goal * d, k, fin, d);
    CeilAtMost(goal * d, d, goal);
    var r := CeilDiv(Vco(Multiplier(goal * d, k, fin), k, fin), d);
    assert (goal - r) * d == goal * d - r * d;
  }

  /** When the loop finds a post divider. */
  lemma ServedShift(f: nat, fmin: nat)
    ensures var s := Shift(f, fmin, 0);
      && (16 * f >= fmin <==> s < 5)
      && (s < 5 ==> PostDiv(s) == Pow2(s))
      && (s == 5 ==> PostDiv(s) == 16 && Pow2(s) == 32)
  {
    assert Pow2(4) == 16 && Pow2(5) == 32;
    if Shift(f, fmin, 0) < 5 {
      Pow2Grows(Shift(f, fmin, 0), 4);
      MulMono(Pow2(Shift(f, fmin, 0)), 16, f);
    }
  }

  /** So the promised rate stays within the request exactly when 16 times it reaches fmin,
      provided one step is no more than the request itself. */
  lemma RoundsDownIff(p: Pll, freq: nat, fin: nat)
    requires p.Fits(freq, fin) && fin <= p.Target(freq) * 16 * Pow2(p.Frac())
    ensures RoundPll(p, freq, fin) <= p.Target(freq) <==> 16 * p.Target(freq) >= p.Fmin()
  {
    hide RoundPll, Values, Pow2;
    RoundBound(p, freq, fin);
    var f, r, k := p.Target(freq), RoundPll(p, freq, fin), Pow2(p.Frac());
    if 16 * f < p.Fmin() && r <= f {
      MulMono(f * 16, (2 * f - r) * 16, k);
    }
  }

  lemma {:induction false} ShiftGrows(f: nat, r: nat, fmin: nat, v: nat)
    requires r <= f && v <= 5
    ensures Shift(f, fmin, v) <= Shift(r, fmin, v)
    ensures Shift(f, fmin, v) < 5 ==>
              (Shift(r, fmin, v) == Shift(f, fmin, v) <==> r * Pow2(Shift(f, fmin, v)) >= fmin)
    decreases 5 - v
  {
    hide Pow2;
    MulMono(r, f, Pow2(v));
    if v < 5 && f * Pow2(v) < fmin {
      ShiftGrows(f, r, fmin, v + 1);
    }
  }

  lemma PowApart(m: nat, n: nat)
    requires m < n
    ensures Pow2(m) < Pow2(n)
  {
    Pow2Grows(m + 1, n);
  }

  /** A request that falls through although the first one did not gets another multiplier,
      unless both are nothing. */
  lemma FallThroughDiffers(t: nat, r: nat, k: nat, fin: nat)
    requires fin > 0 && k > 0 && r == CeilDiv(Vco(Multiplier(t, k, fin), k, fin), 16) && r > 0
    ensures Multiplier(t, k, fin) != Multiplier(r * 32, k, fin)
  {
    hide FloorDiv, CeilDiv, Multiplier, Vco;
    var pcw := Multiplier(t, k, fin);
    var vco := Vco(pcw, k, fin);
    VcoBound(t, k, fin);
    CeilBounds(vco, 16);
    MulMono(vco, r * 16, k);
    assert r * 32 * k == 2 * (r * 16 * k) && 2 * pcw * fin == 2 * (pcw * fin);
    MultiplierAtLeast(r * 32, k, fin, 2 * pcw);
    if pcw == 0 {
      NoRate(k, fin);
    }
  }

  lemma NoRate(k: nat, fin: nat)
    requires k > 0
    ensures CeilDiv(Vco(0, k, fin), 16) == 0
  {
    CeilAtMost(0, k, 0);
    CeilAtMost(0, 16, 0);
  }

  /** Asking again for the promised rate, which is what setting a rate does: the same rate
      comes out as long as 16 times it still reaches fmin, even where the post divider changes;
      the multiplier and the post divider are the same exactly when the promised rate times
      the post divider reaches fmin. */
  lemma RoundPllAgain(p: Pll, freq: nat, fin: nat)
    requires p.Fits(freq, fin) && 16 * p.Target(freq) >= p.Fmin()
    ensures var r, d := RoundPll(p, freq, fin), Values(p, freq, fin).1;
      && p.Fits(r, fin)
      && (16 * r >= p.Fmin() ==> RoundPll(p, r, fin) == r)
      && (r > 0 ==> (Values(p, r, fin) == Values(p, freq, fin) <==> r * d >= p.Fmin()))
  {
    hide FloorDiv, CeilDiv, Multiplier, Vco, Pcw, Recalc, Pow2, RoundPll, Shift;
    var f, r := p.Target(freq), RoundPll(p, freq, fin);
    var k, d := Pow2(p.Frac()), Values(p, freq, fin).1;
    RoundBound(p, freq, fin);
    RoundExact(p, freq, fin);
    ServedShift(f, p.Fmin());
    ServedShift(r, p.Fmin());
    RoundExact(p, r, fin);
    ValuesExact(p, freq, fin);
    ValuesExact(p, r, fin);
    var s, s' := Shift(f, p.Fmin(), 0), Shift(r, p.Fmin(), 0);
    ShiftGrows(f, r, p.Fmin(), 0);
    if s' < 5 {
      Pow2Add(s, s' - s);
      RateAgain(f, d, Pow2(s' - s), k, fin);
      PowOfNone();
      if s < s' { PowApart(s, s'); }
    } else if d == 16 && r > 0 {
      FallThroughDiffers(f * d, r, k, fin);
    }
  }

  /** A rounded rate keeps within the limits, and within fmax if the request had a post divider. */
  lemma RoundedFits(p: Pll, freq: nat, fin: nat)
    requires p.Fits(freq, fin)
    ensures p.Fits(RoundPll(p, freq, fin), fin)
    ensures 16 * p.Target(freq) >= p.Fmin() ==> RoundPll(p, freq, fin) <= p.fmax
  {
    hide RoundPll, Values, Pow2;
    RoundBound(p, freq, fin);
  }

  /** Without a post divider of its own, a request is rounded to what twice the request would
      be rounded to with post divider 16, and if that has one, it is 16. */
  lemma RoundFallenAgain(p: Pll, freq: nat, fin: nat)
    requires p.Fits(freq, fin) && 16 * p.Target(freq) < p.Fmin()
    requires RoundPll(p, freq, fin) <= p.fmax && 16 * RoundPll(p, freq, fin) >= p.Fmin()
    ensures p.Fits(RoundPll(p, freq, fin), fin)
    ensures RoundPll(p, RoundPll(p, freq, fin), fin) == RoundPll(p, freq, fin)
  {
    hide FloorDiv, CeilDiv, Multiplier, Vco, Pcw, Recalc, Pow2, RoundPll, Shift;
    var f, r, k := p.Target(freq), RoundPll(p, freq, fin), Pow2(p.Frac());
    RoundBound(p, freq, fin);
    RoundExact(p, freq, fin);
    WantedGoal(p, freq, fin);
    RoundedFits(p, freq, fin);
    RoundExact(p, r, fin);
    WantedGoal(p, r, fin);
    LastShift(r, p.Fmin());
    RateAgain(2 * f, 16, 1, k, fin);
  }

  lemma LastShift(f: nat, fmin: nat)
    requires 8 * f < fmin <= 16 * f
    ensures PostDiv(Shift(f, fmin, 0)) == 16
  {
    assert Pow2(4) == 16 && Pow2(3) == 8;
    var s := Shift(f, fmin, 0);
    ServedShift(f, fmin);
    var low := if s < 4 then s else 3;
    Pow2Grows(low, 3);
    MulMono(Pow2(low), 8, f);
  }

  /** A rounded rate is 0 or at least one step of the multiplier. */
  lemma StepCovered(p: Pll, freq: nat, fin: nat)
    requires p.Fits(freq, fin) && RoundPll(p, freq, fin) > 0
    ensures fin <= RoundPll(p, freq, fin) * 16 * Pow2(p.Frac())
  {
    hide FloorDiv, CeilDiv, Multiplier, Vco, Values, RoundPll, Pow2, Wanted;
    var k, d, r := Pow2(p.Frac()), Values(p, freq, fin).1, RoundPll(p, freq, fin);
    RoundExact(p, freq, fin);
    WantedFits(p, freq, fin);
    var pcw := Multiplier(Wanted(p, freq), k, fin);
    if pcw == 0 {
      CeilAtMost(0, k, 0);
      NoVco(k, fin, d);
    }
    MulMono(1, pcw, fin);
    CoversSteps(pcw, k, fin, d, r);
  }

  lemma NoVco(k: nat, fin: nat, d: nat)
    requires k > 0 && d > 0
    ensures CeilDiv(Vco(0, k, fin), d) == 0
  {
    hide CeilDiv;
    CeilAtMost(fin * 0, k, 0);
    CeilAtMost(Vco(0, k, fin), d, 0);
  }

  lemma CoversSteps(pcw: nat, k: nat, fin: nat, d: nat, r: nat)
    requires k > 0 && 0 < d <= 16 && r == CeilDiv(Vco(pcw, k, fin), d)
    ensures fin * pcw <= r * 16 * k
  {
    hide CeilDiv;
    var vco := Vco(pcw, k, fin);
    CeilBounds(fin * pcw, k);
    CeilBounds(vco, d);
    MulMono(d, 16, r);
    MulMono(vco, r * 16, k);
  }

  lemma NothingStays(p: Pll, fin: nat)
    requires p.Fits(0, fin)
    ensures RoundPll(p, 0, fin) == 0
  {
    hide RoundPll, Values, Pow2;
    RoundBound(p, 0, fin);
  }

  lemma CutOffAlike(p: Pll, r: nat, fin: nat)
    requires fin > 0 && r > p.fmax
    ensures RoundPll(p, r, fin) == RoundPll(p, p.fmax, fin)
  {
    hide Shift, Pcw, Recalc, Pow2;
  }

  /** Rounding a rate twice, as setting one does, is rounding it once, exactly when 16 times
      the rounded rate reaches fmin or it is 0; else a larger rate comes out.  Only a request
      without a post divider can be rounded to more than fmax, and then what fmax is rounded to
      comes out. */
  lemma RoundTwiceIff(p: Pll, freq: nat, fin: nat)
    requires p.Fits(freq, fin)
    ensures p.Fits(RoundPll(p, freq, fin), fin)
    ensures var r := RoundPll(p, freq, fin);
      && (r <= p.fmax ==>
            && (RoundPll(p, r, fin) == r <==> 16 * r >= p.Fmin() || r == 0)
            && (RoundPll(p, r, fin) > r <==> 0 < 16 * r < p.Fmin()))
      && (r > p.fmax ==>
            && 16 * p.Target(freq) < p.Fmin() && RoundPll(p, r, fin) == RoundPll(p, p.fmax, fin)
            && (16 * p.fmax >= p.Fmin() ==> RoundPll(p, r, fin) < r))
  {
    hide RoundPll, Values, Pow2;
    var r := RoundPll(p, freq, fin);
    RoundedFits(p, freq, fin);
    if r > p.fmax {
      CutOffAlike(p, r, fin);
      RoundBound(p, r, fin);
    } else if r == 0 {
      NothingStays(p, fin);
    } else {
      StepCovered(p, freq, fin);
      RoundsDownIff(p, r, fin);
      if 16 * r >= p.Fmin() {
        if 16 * p.Target(freq) >= p.Fmin() {
          RoundPllAgain(p, freq, fin);
        } else {
          RoundFallenAgain(p, freq, fin);
        }
      }
    }
  }

  /** So it happens at 62.5 MHz from 26 MHz, the lowest rate that 16 lifts to the default fmin
      of 1 GHz: it is rounded to 62499966 Hz, which falls through, and twice that is set. */
  lemma TwiceTheRate()
    ensures var p := Pll(3800000000, 0, 22, 0);
      && p.Fits(62500000, 26000000)
      && 16 * p.Target(62500000) >= p.Fmin()
      && RoundPll(p, 62500000, 26000000) == 62499966
      && RoundPll(p, 62499966, 26000000) == 124999932
  {
    hide Shift, Pcw, Recalc, Pow2;
    SomePowers();
    var p := Pll(3800000000, 0, 22, 0);
    ExampleShifts();
    ExampleRates(p);
  }

  lemma SomePowers()
    ensures Pow2(4) == 16 && Pow2(5) == 32 && Pow2(7) == 128 && Pow2(15) == 32768
  {
    Pow2Add(7, 8);
    assert Pow2(4) == 16 && Pow2(7) == 128 && Pow2(8) == 256;
  }

  lemma ExampleShifts()
    ensures Shift(62500000, 1000000000, 0) == 4 && Shift(62499966, 1000000000, 0) == 5
    ensures PostDiv(4) == 16 && PostDiv(5) == 16
  {
    assert Pow2(1) == 2 && Pow2(2) == 4 && Pow2(3) == 8 && Pow2(4) == 16;
    assert Shift(62500000, 1000000000, 2) == 4;
    assert Shift(62499966, 1000000000, 3) == 5;
    assert Shift(62499966, 1000000000, 1) == 5;
  }

  lemma ExampleRates(p: Pll)
    requires p.Frac() == 15
    ensures Pcw(62500000, 4, 15, 26000000) == 1260307 && Recalc(p, 26000000, 1260307, 16) == 62499966
    ensures Pcw(62499966, 5, 15, 26000000) == 2520614 && Recalc(p, 26000000, 2520614, 16) == 124999932
  {
    hide Pow2;
    SomePowers();
  }

  // ---------------------------------------------------------------- the registers of a PLL

  const POSTDIV_BITS: nat := 3
  const FLAG: nat := 31               // the bit that tells the hardware of a new multiplier
  const DEFAULT_PARENT: nat := 26000000

  datatype Status = Ok | Einval

  /** The place of the lowest bit that is set. */
  function LowestBit(n: nat): nat
    requires n > 0
  {
    if n % 2 == 1 then 0 else 1 + LowestBit(n / 2)
  }

  lemma {:induction false} LowestBitOfPow(v: nat)
    ensures LowestBit(Pow2(v)) == v
  {
    if v > 0 {
      LowestBitOfPow(v - 1);
    }
  }

  function Flagged(w: Word): Word { Or(w, Mask(FLAG, FLAG + 1)) }

  lemma SmallPowers()
    ensures Pow2(0) == 1 && Pow2(3) == 8 && Pow2(4) == 16
  {
    assert Pow2(3) == 8;
  }

  /** What the field of the post divider gets for a request. */
  ghost function PostShift(p: Pll, freq: nat): (v: nat)
    ensures v < 5
  {
    var s := Shift(p.Target(freq), p.Fmin(), 0);
    if s < 5 then s else 4
  }

  lemma PostShiftFits(p: Pll, freq: nat, fin: nat)
    requires fin > 0
    ensures Values(p, freq, fin).1 == Pow2(PostShift(p, freq))
  {
    hide Pow2, Shift, Pcw;
  }

  class PllRegisters {
    const pll: Pll
    const pdOfs: nat
    const pdShift: nat
    const pcwOfs: nat
    const pcwShift: nat
    const chgOfs: nat          // 0 when the flag is kept with the multiplier
    var regs: map<nat, Word>
    ghost var writes: seq<nat>  // the registers written, in order

    constructor (pll: Pll, pdOfs: nat, pdShift: nat, pcwOfs: nat, pcwShift: nat, chgOfs: nat, regs: map<nat, Word>)
      ensures this.pll == pll && this.pdOfs == pdOfs && this.pdShift == pdShift && this.pcwOfs == pcwOfs
      ensures this.pcwShift == pcwShift && this.chgOfs == chgOfs && this.regs == regs
    {
      this.pll, this.pdOfs, this.pdShift, this.pcwOfs := pll, pdOfs, pdShift, pcwOfs;
      this.pcwShift, this.chgOfs, this.regs := pcwShift, chgOfs, regs;
      writes := [];
    }

    ghost predicate InPd(a: nat, i: int) { a == pdOfs && pdShift <= i < pdShift + 3 }

    ghost predicate InPcw(a: nat, i: int) { a == pcwOfs && pcwShift <= i < pcwShift + pll.pcwbits }

    ghost predicate IsFlag(a: nat, i: int) { a == FlagOfs() && i == FLAG }

    /** The fields lie in their registers and do not overlap each other or the flag. */
    ghost predicate Valid()
      reads this
    {
      && pdOfs in regs && pcwOfs in regs && (chgOfs != 0 ==> chgOfs in regs)
      && pdShift + POSTDIV_BITS <= BITS && pcwShift + pll.pcwbits <= BITS
      && (pdOfs == pcwOfs ==> pdShift + POSTDIV_BITS <= pcwShift || pcwShift + pll.pcwbits <= pdShift)
      && !InPd(FlagOfs(), FLAG) && !InPcw(FlagOfs(), FLAG)
    }

    /** The flag's register was read before the multiplier went into the same one. */
    ghost predicate Stale() { chgOfs != 0 && chgOfs == pcwOfs }

    ghost function PcwField(): nat
      reads this
      requires Valid()
    {
      GetField(regs[pcwOfs], pcwShift, pll.pcwbits)
    }

    ghost function PdField(): nat
      reads this
      requires Valid()
    {
      GetField(regs[pdOfs], pdShift, POSTDIV_BITS)
    }

    /** The register that holds the flag. */
    function FlagOfs(): nat { if chgOfs != 0 then chgOfs else pcwOfs }

    /** The writes of one change: the post divider, unless it shares a register with the
        multiplier, then that, and the flag last. */
    function Sequence(): seq<nat> {
      (if pdOfs != pcwOfs then [pdOfs] else []) + [pcwOfs] + (if chgOfs != 0 then [chgOfs] else [])
    }

    method WriteReg(a: nat, w: Word)
      modifies this
      ensures regs == old(regs)[a := w] && writes == old(writes) + [a]
    {
      regs := regs[a := w];
      writes := writes + [a];
    }

    /** Writes both fields and raises the flag.  When the flag has a register of its own and
        that is the multiplier's, what was read from it before is written back last: the old
        multiplier stays. */
    method SetRateRegs(pcw: nat, postdiv: nat, ghost v: nat)
      requires Valid() && pcw < Pow2(pll.pcwbits) && v < 8 && postdiv == Pow2(v)
      modifies this
      ensures Valid() && regs.Keys == old(regs).Keys
      ensures !Stale() ==> PcwField() == pcw && PdField() == v
      ensures Stale() && pdOfs != pcwOfs ==> PdField() == v
      ensures Stale() ==> forall i :: 0 <= i < BITS && i != 31 ==> regs[pcwOfs][i] == old(regs)[pcwOfs][i]
      ensures regs[FlagOfs()][31] && writes == old(writes) + Sequence()
      ensures forall a, i :: a in regs && 0 <= i < BITS && !InPd(a, i) && !InPcw(a, i) && !IsFlag(a, i) ==>
                regs[a][i] == old(regs)[a][i]
    {
      hide SetField, GetField, Pow2, Number;
      LowestBitOfPow(v);
      SmallPowers();
      var val := regs[pdOfs];
      FieldRoundTrip(val, pdShift, POSTDIV_BITS, v);
      val := SetField(val, pdShift, POSTDIV_BITS, LowestBit(postdiv));
      if pdOfs != pcwOfs {
        WriteReg(pdOfs, val);
        val := regs[pcwOfs];
      }
      FieldRoundTrip(val, pcwShift, pll.pcwbits, pcw);
      ghost var before := val;
      val := SetField(val, pcwShift, pll.pcwbits, pcw);
      if pdOfs == pcwOfs {
        SameField(val, before, pdShift, POSTDIV_BITS);
      }
      if chgOfs != 0 {
        var chg := Flagged(regs[chgOfs]);
        WriteReg(pcwOfs, val);
        if chgOfs == pdOfs && chgOfs != pcwOfs {
          SameField(chg, regs[chgOfs], pdShift, POSTDIV_BITS);
        }
        WriteReg(chgOfs, chg);
      } else {
        SameField(Flagged(val), val, pcwShift, pll.pcwbits);
        if pdOfs == pcwOfs {
          SameField(Flagged(val), val, pdShift, POSTDIV_BITS);
        }
        val := Flagged(val);
        WriteReg(pcwOfs, val);
      }
    }

    /** The rate that the fields stand for. */
    ghost function Rate(parent: nat): nat
      reads this
      requires Valid()
    {
      Recalc(pll, parent, PcwField(), Pow2(PdField()))
    }

    /** Reads the rate back: the smallest one that is enough for the two fields. */
    method RecalcRate(parent: nat) returns (rate: nat)
      requires Valid()
      ensures rate == Rate(parent)
      ensures var vco, d := Vco(PcwField(), Pow2(pll.Frac()), parent), Pow2(PdField());
        && (vco < WORD && (vco + d <= WORD || vco == 0) ==>
              forall q: nat :: Covers(pll, parent, PcwField(), d, q) <==> rate <= q)
        && (vco < WORD && vco + d > WORD && vco > 0 ==> rate == 0)
    {
      hide Recalc, Covers, Vco, Pow2;
      var postdiv := GetField(regs[pdOfs], pdShift, POSTDIV_BITS);
      postdiv := Pow2(postdiv);
      var pcw := GetField(regs[pcwOfs], pcwShift, pll.pcwbits);
      rate := Recalc(pll, parent, pcw, postdiv);
      if Vco(pcw, Pow2(pll.Frac()), parent) < WORD {
        RecalcIsSmallest(pll, parent, pcw, postdiv);
      }
    }

    /** The rate that the registers would stand for. */
    method RoundRate(rate: nat, parent: nat) returns (rounded: nat)
      requires parent > 0
      ensures rounded == RoundPll(pll, rate, parent)
    {
      hide Recalc, Pow2, Pcw, Shift;
      var pcw, postdiv := CalcValues(pll, rate, parent);
      rounded := Recalc(pll, parent, pcw, postdiv);
    }

    /** Sets a rate; reading it back then gives what rounding the request gives. */
    method SetRate(rate: nat, parent: nat) returns (s: Status)
      requires Valid() && pll.Fits(rate, if parent == 0 then 26000000 else parent)
      modifies this
      ensures Valid()
      ensures rate == 0 ==> s == Einval && regs == old(regs)
      ensures rate > 0 ==> s == Ok
      ensures rate > 0 && !Stale() ==>
                var fin := if parent == 0 then 26000000 else parent;
                && Rate(fin) == RoundPll(pll, rate, fin)
                && PcwField() == Values(pll, rate, fin).0 && Pow2(PdField()) == Values(pll, rate, fin).1
      ensures rate > 0 ==> regs[FlagOfs()][31] && writes == old(writes) + Sequence()
      ensures regs.Keys == old(regs).Keys
      ensures forall a, i :: a in regs && 0 <= i < BITS && !InPd(a, i) && !InPcw(a, i) && !IsFlag(a, i) ==>
                regs[a][i] == old(regs)[a][i]
    {
      hide Recalc, Values, Pow2;
      if rate == 0 {
        return Einval;
      }
      var fin := if parent == 0 then DEFAULT_PARENT else parent;
      ghost var v := PostShift(pll, rate);
      PostShiftFits(pll, rate, fin);
      ValuesExact(pll, rate, fin);
      var pcw, postdiv := CalcValues(pll, rate, fin);
      SetRateRegs(pcw, postdiv, v);
      s := Ok;
    }

    /** Setting a rate from outside: unless the registers give it already, it is rounded first
        and the rounded one is set, which rounds it once more.  So the registers give the
        promised rate exactly when 16 times that reaches fmin. */
    method ClkSetRate(rate: nat, parent: nat) returns (s: Status, rounded: nat)
      requires Valid() && parent > 0 && pll.Fits(rate, parent)
      modifies this
      ensures Valid() && rounded == RoundPll(pll, rate, parent)
      ensures old(Rate(parent)) == rate ==> s == Ok && regs == old(regs)
      ensures old(Rate(parent)) != rate ==> (s == Einval <==> RoundPll(pll, rate, parent) == 0)
      ensures s == Einval ==> regs == old(regs)
      ensures s == Ok && old(Rate(parent)) != rate && !Stale() ==>
                Rate(parent) == RoundPll(pll, RoundPll(pll, rate, parent), parent)
      ensures var promised := RoundPll(pll, rate, parent);
        s == Ok && old(Rate(parent)) != rate && !Stale() ==>
          && (promised <= pll.fmax ==> (Rate(parent) == promised <==> 16 * promised >= pll.Fmin()))
          && (promised > pll.fmax ==> Rate(parent) == RoundPll(pll, pll.fmax, parent))
      ensures s == Ok && old(Rate(parent)) != rate ==> regs[FlagOfs()][31] && writes == old(writes) + Sequence()
    {
      hide Recalc, Values, Pow2, RoundPll;
      var now := RecalcRate(parent);
      rounded := RoundRate(rate, parent);
      RoundTwiceIff(pll, rate, parent);
      if rate == now {
        return Ok, rounded;
      }
      s := SetRate(rounded, parent);
    }
  }

  // ---------------------------------------------------------------- the register of a divider

  lemma OneFits(width: nat)
    ensures 0 < Pow2(width)
  {
  }

  class DivRegister {
    const shift: nat
    const width: nat
    var reg: Word

    constructor (shift: nat, width: nat, reg: Word)
      ensures this.shift == shift && this.width == width && this.reg == reg
    {
      this.shift, this.width, this.reg := shift, width, reg;
    }

    ghost predicate Valid() { 0 < width && shift + width <= BITS }

    ghost function Divider(): nat
      reads this
    {
      GetField(reg, shift, width) + 1
    }

    /** Reads the rate back: the smallest one that is enough for the divider, unless the sum
        in the division wraps. */
    method RecalcRate(parent: nat) returns (rate: nat)
      requires parent < WORD
      ensures rate == DivRate(parent, Divider())
      ensures parent == 0 || parent + Divider() <= WORD ==>
                forall q: nat :: Enough(parent, Divider(), q) <==> rate <= q
      ensures 0 < parent && parent + Divider() > WORD ==> rate == 0
    {
      hide DivRate, Enough;
      DivRateIs(parent, Divider());
      var d := GetField(reg, shift, width);
      d := d + 1;
      rate := DivRate(parent, d);
    }

    /** Sets a rate: the divider wanted for it goes into its field, unless the sum in the
        division wraps; the other bits stay, and reading back gives what rounding the request
        gives. */
    method SetRate(rate: nat, parent: nat) returns (s: Status)
      requires Valid() && rate < WORD && parent < WORD
      modifies this
      ensures s == Einval <==> rate == 0 || parent == 0
      ensures s == Einval ==> reg == old(reg)
      ensures s == Ok ==>
                (Divider() == WantedDiv(width, rate, parent) <==> parent + rate <= WORD || parent <= rate)
      ensures s == Ok ==> GetField(reg, shift, width) + 1 == CalcDiv(width, rate, parent)
      ensures s == Ok ==> DivRate(parent, Divider()) == RoundDiv(width, rate, parent)
      ensures forall i :: 0 <= i < BITS && !(shift <= i < shift + width) ==> reg[i] == old(reg)[i]
    {
      hide CalcDiv, WantedDiv, DivRate, SetField, GetField, Pow2;
      var picked := CalcDiv(width, rate, parent);
      if rate == 0 || parent == 0 {
        return Einval;
      }
      CalcDivIsWanted(width, rate, parent);
      WantedRange(width, rate, parent);
      var d := picked - 1;
      OneFits(width);
      FieldRoundTrip(reg, shift, width, d);
      var val := SetField(reg, shift, width, d);
      if val != reg {
        reg := val;
      }
      s := Ok;
    }

    /** The rate that the divider would give. */
    method RoundRate(rate: nat, parent: nat) returns (rounded: nat)
      requires rate < WORD && parent < WORD
      ensures rounded == RoundDiv(width, rate, parent)
    {
      var d := CalcDiv(width, rate, parent);
      rounded := if d > 0 then DivRate(parent, d) else 0;
    }

    /** Setting a rate from outside: unless the register gives it already, it is rounded first
        and the rounded one is set, which rounds it once more.  So the register gives the promised
        rate exactly when its sum with the parent's rate does not wrap, or the clock is not
        divided. */
    method ClkSetRate(rate: nat, parent: nat) returns (s: Status, rounded: nat)
      requires Valid() && rate < WORD && parent < WORD
      modifies this
      ensures rounded == RoundDiv(width, rate, parent)
      ensures old(DivRate(parent, Divider())) == rate ==> s == Ok && reg == old(reg)
      ensures old(DivRate(parent, Divider())) != rate ==> (s == Einval <==> RoundDiv(width, rate, parent) == 0)
      ensures s == Einval ==> reg == old(reg)
      ensures var promised := RoundDiv(width, rate, parent);
        s == Ok && old(DivRate(parent, Divider())) != rate ==>
          (DivRate(parent, Divider()) == promised <==> parent + promised <= WORD || promised == parent)
      ensures forall i :: 0 <= i < BITS && !(shift <= i < shift + width) ==> reg[i] == old(reg)[i]
    {
      hide DivRate, RoundDiv;
      var now := RecalcRate(parent);
      rounded := RoundRate(rate, parent);
      RoundDivTwice(width, rate, parent);
      if rate == now {
        return Ok, rounded;
      }
      s := SetRate(rounded, parent);
    }
  }
}
