/**
 * Bit-position decoding of OMCI attribute masks (`bitpos_from_mask`).
 */
module OmciDefs {
  import Sorting

  /** Bit `k` of `m`, i.e. `(m >> k) & 1 == 1`. */
  function Bit(m: nat, k: nat): bool
  {
    if k == 0 then m % 2 == 1 else Bit(m / 2, k - 1)
  }

  /** Number of set bits of `m`. */
  function Popcount(m: nat): nat
  {
    if m == 0 then 0 else m % 2 + Popcount(m / 2)
  }

  /** The position reported for bit `k`. */
  function PosOf(lsb: int, inc: int, k: nat): int
  {
    lsb + k * inc
  }

  /**
   * The positions the loop collects, least significant bit first: bit `k` contributes
   * `lsb + k * inc` when it is set.
   */
  function Collected(mask: nat, lsb: int, inc: int): seq<int>
  {
    if mask == 0 then []
    else (if mask % 2 == 1 then [lsb] else []) + Collected(mask / 2, lsb + inc, inc)
  }

  /** The result of `bitpos_from_mask(mask, lsb, inc)` for a non-negative mask. */
  function Bitpos(mask: nat, lsb: int, inc: int): seq<int>
  {
    Sorting.Sort(Collected(mask, lsb, inc))
  }

  /** The while loop of `bitpos_from_mask`, followed by `sorted`. */
  method BitposFromMask(mask0: nat, lsbPos0: int, increment: int) returns (out: seq<int>)
    ensures out == Bitpos(mask0, lsbPos0, increment)
    ensures Sorting.SortedAsc(out)
    ensures |out| == Popcount(mask0)
  {
    var acc: seq<int> := [];
    var mask := mask0;
    var lsbPos := lsbPos0;
    while mask != 0
      invariant acc + Collected(mask, lsbPos, increment) == Collected(mask0, lsbPos0, increment)
      decreases mask
    {
      if mask % 2 == 1 {
        AppendStep(acc, lsbPos, Collected(mask / 2, lsbPos + increment, increment));
        acc := acc + [lsbPos];
      }
      lsbPos := lsbPos + increment;
      mask := mask / 2;
    }
    assert acc + [] == acc;
    out := Sorting.Sort(acc);
    CollectedLength(mask0, lsbPos0, increment);
  }

  lemma AppendStep(acc: seq<int>, x: int, rest: seq<int>)
    ensures acc + ([x] + rest) == (acc + [x]) + rest
  {
  }

  lemma {:induction false} CollectedLength(mask: nat, lsb: int, inc: int)
    ensures |Collected(mask, lsb, inc)| == Popcount(mask)
    decreases mask
  {
    if mask != 0 {
      CollectedLength(mask / 2, lsb + inc, inc);
    }
  }

  /** Every set bit contributes its position. */
  lemma {:induction false} CollectedHasSetBit(mask: nat, lsb: int, inc: int, k: nat)
    requires Bit(mask, k)
    ensures PosOf(lsb, inc, k) in Collected(mask, lsb, inc)
    decreases k
  {
    if k > 0 {
      CollectedHasSetBit(mask / 2, lsb + inc, inc, k - 1);
      assert PosOf(lsb, inc, k) == PosOf(lsb + inc, inc, k - 1);
    }
  }

  /** Every collected position comes from a set bit. */
  lemma {:induction false} CollectedFromSetBit(mask: nat, lsb: int, inc: int, x: int) returns (k: nat)
    requires x in Collected(mask, lsb, inc)
    ensures Bit(mask, k) && x == PosOf(lsb, inc, k)
    decreases mask
  {
    var head := if mask % 2 == 1 then [lsb] else [];
    assert Collected(mask, lsb, inc) == head + Collected(mask / 2, lsb + inc, inc);
    if mask % 2 == 1 && x == lsb {
      k := 0;
    } else {
      assert x in Collected(mask / 2, lsb + inc, inc);
      var k' := CollectedFromSetBit(mask / 2, lsb + inc, inc, x);
      k := k' + 1;
      assert PosOf(lsb, inc, k) == PosOf(lsb + inc, inc, k');
    }
  }

  /** A mask of 0 gives the empty list. */
  lemma ZeroMask(lsb: int, inc: int)
    ensures Bitpos(0, lsb, inc) == []
  {
  }

  /** Each entry equals `lsb + k * inc` for a set bit `k`, and every set bit gives an entry. */
  lemma BitposEntries(mask: nat, lsb: int, inc: int)
    ensures forall x :: x in Bitpos(mask, lsb, inc) ==> exists k: nat :: Bit(mask, k) && x == PosOf(lsb, inc, k)
    ensures forall k: nat :: Bit(mask, k) ==> PosOf(lsb, inc, k) in Bitpos(mask, lsb, inc)
  {
    var c := Collected(mask, lsb, inc);
    forall x | x in Bitpos(mask, lsb, inc)
      ensures exists k: nat :: Bit(mask, k) && x == PosOf(lsb, inc, k)
    {
      Sorting.SortMembers(c, x);
      var k := CollectedFromSetBit(mask, lsb, inc, x);
      assert Bit(mask, k) && x == PosOf(lsb, inc, k);
    }
    forall k: nat | Bit(mask, k)
      ensures PosOf(lsb, inc, k) in Bitpos(mask, lsb, inc)
    {
      CollectedHasSetBit(mask, lsb, inc, k);
      Sorting.SortMembers(c, PosOf(lsb, inc, k));
    }
  }

  /** With the default `lsb_pos = 0` and `increment = 1`, `k` is listed iff bit `k` is set. */
  lemma DefaultPositions(mask: nat)
    ensures forall x :: x in Bitpos(mask, 0, 1) ==> x >= 0
    ensures forall k: nat :: k in Bitpos(mask, 0, 1) <==> Bit(mask, k)
  {
    var c := Collected(mask, 0, 1);
    forall x | x in Bitpos(mask, 0, 1)
      ensures x >= 0 && Bit(mask, x)
    {
      Sorting.SortMembers(c, x);
      var k := CollectedFromSetBit(mask, 0, 1, x);
      assert PosOf(0, 1, k) == k;
    }
    forall k: nat | Bit(mask, k)
      ensures k in Bitpos(mask, 0, 1)
    {
      CollectedHasSetBit(mask, 0, 1, k);
      assert PosOf(0, 1, k) == k;
      Sorting.SortMembers(c, k);
    }
  }
}
