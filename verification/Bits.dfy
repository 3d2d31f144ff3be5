/** 64-bit words as sets of slots 0..63: the masks, the scans and the laws both bitmaps rest on. */
module Bits {

  const FULL: bv64 := 0xFFFF_FFFF_FFFF_FFFF

  /** A slot's number as a shift count. */
  function At(k: nat): bv64 {
    if k == 0 then 0 else At(k - 1) + 1
  }

  /** The word with slot `k` set. */
  function With(w: bv64, k: nat): bv64
    requires k < 64
  {
    AtSmall(k);
    SetBit(w, At(k))
  }

  /** The word with slot `k` cleared. */
  function Without(w: bv64, k: nat): bv64
    requires k < 64
  {
    AtSmall(k);
    ClearBit(w, At(k))
  }

  predicate Has(w: bv64, k: nat)
    requires k < 64
  {
    AtSmall(k);
    Bit(w, At(k))
  }

  /** The slots a word holds. */
  function Members(w: bv64): set<nat> {
    set k: nat | k < 64 && Has(w, k)
  }

  /** The number of set bits before the lowest clear one. */
  function CountrOne(w: bv64, from: nat := 0): nat
    requires from <= 64
    decreases 64 - from
  {
    if from < 64 && Has(w, from) then CountrOne(w, from + 1) else from
  }

  /** The number of clear bits before the lowest set one. */
  function CountrZero(w: bv64, from: nat := 0): nat
    requires from <= 64
    decreases 64 - from
  {
    if from < 64 && !Has(w, from) then CountrZero(w, from + 1) else from
  }

  /** The word without its lowest set bit. */
  function DropLow(w: bv64): bv64 {
    w & (w - 1)
  }

  // ---- laws on single bits ----

  function Mask(k: bv64): bv64
    requires k < 64
  {
    1 << k
  }

  function SetBit(w: bv64, k: bv64): bv64
    requires k < 64
  {
    w | Mask(k)
  }

  function ClearBit(w: bv64, k: bv64): bv64
    requires k < 64
  {
    w & !Mask(k)
  }

  predicate Bit(w: bv64, k: bv64)
    requires k < 64
  {
    (w >> k) & 1 == 1
  }

  /** The bits below `k` are all set. */
  predicate LowSet(w: bv64, k: bv64)
    requires k <= 64
  {
    w & ((1 << k) - 1) == (1 << k) - 1
  }

  lemma LowSetNone(w: bv64)
    ensures LowSet(w, 0)
  {
  }

  lemma LowSetStep(w: bv64, k: bv64)
    requires k < 64 && LowSet(w, k) && Bit(w, k)
    ensures LowSet(w, k + 1)
  {
  }

  lemma LowSetAll(w: bv64)
    requires LowSet(w, 64)
    ensures w == FULL
  {
  }

  lemma NotBit(w: bv64, k: bv64)
    requires k < 64
    ensures Bit(!w, k) <==> !Bit(w, k)
  {
  }

  lemma FullBit(k: bv64)
    requires k < 64
    ensures Bit(FULL, k)
  {
  }

  lemma SetThis(w: bv64, i: bv64)
    requires i < 64
    ensures Bit(SetBit(w, i), i) && !Bit(ClearBit(w, i), i)
  {
  }

  lemma SetOtherRaw(w: bv64, i: bv64, j: bv64)
    requires i < 64 && j < 64 && i != j
    ensures ((w | (1 << i)) >> j) & 1 == (w >> j) & 1
  {
  }

  lemma SetOther(w: bv64, i: bv64, j: bv64)
    requires i < 64 && j < 64 && i != j
    ensures Bit(SetBit(w, i), j) <==> Bit(w, j)
  {
    SetOtherRaw(w, i, j);
  }

  lemma NotOr(a: bv64, b: bv64)
    ensures !(a | b) == !a & !b
  {
  }

  lemma ClearIsNotSet(w: bv64, i: bv64)
    requires i < 64
    ensures ClearBit(w, i) == !SetBit(!w, i)
  {
    hide Mask;
    NotOr(!w, Mask(i));
  }

  lemma ClearOther(w: bv64, i: bv64, j: bv64)
    requires i < 64 && j < 64 && i != j
    ensures Bit(ClearBit(w, i), j) <==> Bit(w, j)
  {
    hide Bit, SetBit, ClearBit;
    ClearIsNotSet(w, i);
    NotBit(SetBit(!w, i), j);
    SetOther(!w, i, j);
    NotBit(w, j);
  }

  /** Subtracting one and masking drops exactly the lowest set bit. */
  lemma DropsLowestBitRaw(w: bv64, k: bv64)
    requires k < 64 && LowSet(!w, k) && Bit(w, k)
    ensures w & (w - 1) == w & !Mask(k)
  {
  }

  lemma DropsLowestBit(w: bv64, k: bv64)
    requires k < 64 && LowSet(!w, k) && Bit(w, k)
    ensures DropLow(w) == ClearBit(w, k)
  {
    hide Mask, LowSet, Bit;
    DropsLowestBitRaw(w, k);
  }

  lemma NextNumber(i: bv64)
    requires i < 64
    ensures (i + 1) as nat == i as nat + 1
  {
  }

  // ---- laws on slots ----

  lemma {:induction false} AtNumber(k: nat)
    requires k <= 64
    ensures At(k) as nat == k && At(k) <= 64 && (At(k) == 64 <==> k == 64)
  {
    if k > 0 {
      AtNumber(k - 1);
      NextNumber(At(k - 1));
    }
  }

  lemma AtSmall(k: nat)
    requires k <= 64
    ensures At(k) <= 64 && (At(k) == 64 <==> k == 64)
  {
    AtNumber(k);
  }

  lemma AtDistinct(i: nat, j: nat)
    requires i < 64 && j < 64 && i != j
    ensures At(i) != At(j)
  {
    AtNumber(i);
    AtNumber(j);
  }

  lemma SetHas(w: bv64, i: nat)
    requires i < 64
    ensures Has(With(w, i), i) && !Has(Without(w, i), i)
  {
    hide Bit, SetBit, ClearBit, At;
    AtSmall(i);
    SetThis(w, At(i));
  }

  lemma SetHasOther(w: bv64, i: nat, j: nat)
    requires i < 64 && j < 64 && i != j
    ensures Has(With(w, i), j) <==> Has(w, j)
    ensures Has(Without(w, i), j) <==> Has(w, j)
  {
    hide Bit, SetBit, ClearBit, At;
    AtSmall(i);
    AtSmall(j);
    AtDistinct(i, j);
    SetOther(w, At(i), At(j));
    ClearOther(w, At(i), At(j));
  }

  lemma MembersUpdate(w: bv64, i: nat)
    requires i < 64
    ensures Members(With(w, i)) == Members(w) + {i}
    ensures Members(Without(w, i)) == Members(w) - {i}
  {
    hide Has, With, Without;
    forall j: nat | j < 64
      ensures Has(With(w, i), j) <==> i == j || Has(w, j)
      ensures Has(Without(w, i), j) <==> i != j && Has(w, j)
    {
      SetHas(w, i);
      if i != j { SetHasOther(w, i, j); }
    }
  }

  lemma MembersOfExtremes()
    ensures Members(0) == {} && forall k: nat :: k < 64 ==> k in Members(FULL)
  {
    hide Bit;
    forall k: nat | k < 64 ensures Has(FULL, k) && !Has(0, k) {
      AtSmall(k);
      FullBit(At(k));
      NotBit(0, At(k));
      assert !0 == FULL;
    }
  }

  lemma {:induction false} CountrOneFinds(w: bv64, from: nat)
    requires from <= 64 && (AtSmall(from); LowSet(w, At(from)))
    requires forall j: nat :: j < from ==> j in Members(w)
    ensures var k := CountrOne(w, from);
            && k <= 64 && (AtSmall(k); LowSet(w, At(k)))
            && (forall j: nat :: j < k ==> j in Members(w)) && k !in Members(w) && (k == 64 ==> w == FULL)
    decreases 64 - from
  {
    hide Bit, LowSet;
    AtSmall(from);
    if from == 64 {
      LowSetAll(w);
    } else if Has(w, from) {
      LowSetStep(w, At(from));
      CountrOneFinds(w, from + 1);
    }
  }

  /** The lowest clear slot, or 64 exactly when the word is full. */
  lemma LowestClear(w: bv64)
    ensures var k := CountrOne(w);
            k <= 64 && (forall j: nat :: j < k ==> j in Members(w)) && k !in Members(w) && (k == 64 <==> w == FULL)
  {
    LowSetNone(w);
    CountrOneFinds(w, 0);
    MembersOfExtremes();
  }

  lemma NotAllSet(w: bv64)
    ensures LowSet(!w, 64) ==> w == 0
  {
  }

  lemma {:induction false} CountrZeroFinds(w: bv64, from: nat)
    requires from <= 64 && (AtSmall(from); LowSet(!w, At(from)))
    requires forall j: nat :: j < from ==> j !in Members(w)
    ensures var k := CountrZero(w, from);
            && k <= 64 && (AtSmall(k); LowSet(!w, At(k)))
            && (forall j: nat :: j < k ==> j !in Members(w)) && (k < 64 ==> k in Members(w)) && (k == 64 ==> w == 0)
    decreases 64 - from
  {
    hide Bit, LowSet;
    AtSmall(from);
    if from == 64 {
      NotAllSet(w);
    } else if !Has(w, from) {
      NotBit(w, At(from));
      LowSetStep(!w, At(from));
      CountrZeroFinds(w, from + 1);
    }
  }

  /** The lowest set slot, which dropping the low bit removes; 64 exactly when the word is empty. */
  lemma LowestSet(w: bv64)
    ensures var k := CountrZero(w);
            && k <= 64 && (k == 64 <==> w == 0)
            && (forall j: nat :: j < k ==> j !in Members(w))
            && (k < 64 ==> k in Members(w) && DropLow(w) == Without(w, k))
  {
    LowSetNone(!w);
    CountrZeroFinds(w, 0);
    MembersOfExtremes();
    var k := CountrZero(w);
    if k < 64 {
      hide Bit, LowSet, ClearBit, DropLow;
      AtSmall(k);
      DropsLowestBit(w, At(k));
    }
  }
}
