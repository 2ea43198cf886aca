/**
 * A bitmap over bytes (common/utils/BitsMap.cpp). Its first-zero search looks at half,
 * quarter and eighth of a byte; it is proved to find what a scan bit by bit finds.
 */
module Bits {

  /** `1 << offset`. */
  function Mask(offset: nat): bv8
    requires offset < 8
  {
    match offset
    case 0 => 0x01
    case 1 => 0x02
    case 2 => 0x04
    case 3 => 0x08
    case 4 => 0x10
    case 5 => 0x20
    case 6 => 0x40
    case _ => 0x80
  }

  predicate BitOf(b: bv8, offset: nat)
    requires offset < 8
  {
    b & Mask(offset) != 0
  }

  /** Bit `k` of the map. */
  predicate IsSet(bits: seq<bv8>, k: nat)
    requires k < 8 * |bits|
  {
    BitOf(bits[k / 8], k % 8)
  }

  function Ones(bits: seq<bv8>): set<nat> {
    set k: nat | k < 8 * |bits| && IsSet(bits, k)
  }

  /** The scan left under `#if 0`: the least clear bit from `offset` on, or 8. */
  function Scan(b: bv8, offset: nat): nat
    requires offset <= 8
    decreases 8 - offset
  {
    if offset < 8 && BitOf(b, offset) then Scan(b, offset + 1) else offset
  }

  /** The search by halves. */
  function Halves(b: bv8): nat {
    var (b4, i4) := if b & 0xF == 0xF then (b >> 4, 4) else (b, 0);
    var (b2, i2) := if b4 & 0x3 == 0x3 then (b4 >> 2, i4 + 2) else (b4, i4);
    if b2 & 0x1 == 0x1 then i2 + 1 else i2
  }

  /** On every byte with a clear bit, halving finds the least one. */
  lemma HalvesIsScan(b: bv8)
    requires b != 0xFF
    ensures Halves(b) == Scan(b, 0) < 8
  {
  }

  lemma {:induction false} ScanFacts(b: bv8, offset: nat)
    requires offset <= 8
    ensures offset <= Scan(b, offset) <= 8
    ensures forall k :: offset <= k < Scan(b, offset) ==> BitOf(b, k)
    ensures Scan(b, offset) < 8 ==> !BitOf(b, Scan(b, offset))
    decreases 8 - offset
  {
    if offset < 8 && BitOf(b, offset) {
      ScanFacts(b, offset + 1);
    }
  }

  /** The result that the search has to give. */
  ghost predicate LeastClear(bits: seq<bv8>, r: int) {
    if r == -1 then forall k: nat :: k < 8 * |bits| ==> IsSet(bits, k)
    else 0 <= r < 8 * |bits| && !IsSet(bits, r) && forall k: nat :: k < r ==> IsSet(bits, k)
  }

  lemma FullBytes(bits: seq<bv8>, n: nat)
    requires n <= |bits| && forall i :: 0 <= i < n ==> bits[i] == 0xFF
    ensures forall k: nat :: k < 8 * n ==> IsSet(bits, k)
  {
  }

  lemma FirstOpenByte(bits: seq<bv8>, n: nat)
    requires n < |bits| && bits[n] != 0xFF && forall i :: 0 <= i < n ==> bits[i] == 0xFF
    ensures LeastClear(bits, n * 8 + Halves(bits[n]))
  {
  }

  // ---- bytes taken as signed ----

  /** `>>` on a signed byte. */
  function SignedShift(b: bv8, offset: nat): bv8
    requires offset == 4 || offset == 2 || offset == 1
  {
    var high := if offset == 4 then 0xF0 else if offset == 2 then 0xC0 else 0x80;
    (b >> offset) | if b & 0x80 != 0 then high else 0
  }

  function SignedHalves(b: bv8): nat {
    var (b4, i4) := if b & 0xF == 0xF then (SignedShift(b, 4), 4) else (b, 0);
    var (b2, i2) := if b4 & 0x3 == 0x3 then (SignedShift(b4, 2), i4 + 2) else (b4, i4);
    if b2 & 0x1 == 0x1 then i2 + 1 else i2
  }

  /** What the search would give where `char` is signed: no byte equals 0xFF, so the first one is never passed over. */
  function SignedSearch(bits: seq<bv8>): int {
    if bits == [] then -1 else SignedHalves(bits[0])
  }

  /** Where `char` is signed the search is right exactly as long as the first byte is not full. */
  lemma SignedSearchIff(bits: seq<bv8>)
    requires bits != []
    ensures LeastClear(bits, SignedSearch(bits)) <==> bits[0] != 0xFF
  {
  }

  // ---- changing a bit ----

  lemma ByteChange(b: bv8, offset: nat, other: nat)
    requires offset < 8 && other < 8
    ensures BitOf(b | Mask(offset), other) == (other == offset || BitOf(b, other))
    ensures BitOf(b & !Mask(offset), other) == (other != offset && BitOf(b, other))
  {
  }

  lemma SameBit(k: nat, idx: nat)
    ensures k == idx <==> k / 8 == idx / 8 && k % 8 == idx % 8
  {
  }

  lemma BitSet(bits: seq<bv8>, idx: nat, k: nat)
    requires idx < 8 * |bits| && k < 8 * |bits|
    ensures IsSet(bits[idx / 8 := bits[idx / 8] | Mask(idx % 8)], k) == (k == idx || IsSet(bits, k))
  {
    SameBit(k, idx);
    ByteChange(bits[idx / 8], idx % 8, k % 8);
  }

  lemma BitCleared(bits: seq<bv8>, idx: nat, k: nat)
    requires idx < 8 * |bits| && k < 8 * |bits|
    ensures IsSet(bits[idx / 8 := bits[idx / 8] & !Mask(idx % 8)], k) == (k != idx && IsSet(bits, k))
  {
  }

  lemma OnesSet(bits: seq<bv8>, idx: nat)
    requires idx < 8 * |bits|
    ensures Ones(bits[idx / 8 := bits[idx / 8] | Mask(idx % 8)]) == Ones(bits) + {idx}
  {
    forall k: nat | k < 8 * |bits| {
      BitSet(bits, idx, k);
    }
  }

  lemma OnesCleared(bits: seq<bv8>, idx: nat)
    requires idx < 8 * |bits|
    ensures Ones(bits[idx / 8 := bits[idx / 8] & !Mask(idx % 8)]) == Ones(bits) - {idx}
  {
    forall k: nat | k < 8 * |bits| {
      BitCleared(bits, idx, k);
    }
  }

  class BitsMap {
    const mBits: array<bv8>

    function View(): seq<bv8>
      reads mBits
    {
      mBits[..]
    }

    constructor (bits: nat)
      ensures fresh(mBits) && mBits.Length == bits / 8 + 1 && Ones(View()) == {}
    {
      mBits := new bv8[bits / 8 + 1](i => 0);
    }

    method GetZeroBit() returns (idx: int)
      ensures LeastClear(View(), idx)
    {
      var i := 0;
      while i < mBits.Length
        invariant 0 <= i <= mBits.Length
        invariant forall k :: 0 <= k < i ==> mBits[k] == 0xFF
      {
        if mBits[i] != 0xFF {
          FirstOpenByte(mBits[..], i);
          idx := HalfSearch(mBits[i]);
          return idx + i * 8;
        }
        i := i + 1;
      }
      FullBytes(mBits[..], i);
      idx := -1;
    }

    method HalfSearch(byte: bv8) returns (idx: nat)
      ensures idx == Halves(byte)
    {
      var byteval := byte;
      idx := 0;
      if byteval & 0xF == 0xF {
        byteval := byteval >> 4;
        idx := idx + 4;
      }
      if byteval & 0x3 == 0x3 {
        byteval := byteval >> 2;
        idx := idx + 2;
      }
      if byteval & 0x1 == 0x1 {
        byteval := byteval >> 1;
        idx := idx + 1;
      }
    }

    method SetBit(idx: nat)
      requires idx < 8 * mBits.Length
      modifies mBits
      ensures Ones(View()) == old(Ones(View())) + {idx}
    {
      OnesSet(mBits[..], idx);
      mBits[idx / 8] := mBits[idx / 8] | Mask(idx % 8);
      assert mBits[..] == old(mBits[..])[idx / 8 := mBits[idx / 8]];
    }

    method ClearBit(idx: nat)
      requires idx < 8 * mBits.Length
      modifies mBits
      ensures Ones(View()) == old(Ones(View())) - {idx}
    {
      OnesCleared(mBits[..], idx);
      mBits[idx / 8] := mBits[idx / 8] & !Mask(idx % 8);
      assert mBits[..] == old(mBits[..])[idx / 8 := mBits[idx / 8]];
    }

    method Reset()
      modifies mBits
      ensures Ones(View()) == {}
    {
      var i := 0;
      while i < mBits.Length
        invariant 0 <= i <= mBits.Length && forall k :: 0 <= k < i ==> mBits[k] == 0
      {
        mBits[i] := 0;
        i := i + 1;
      }
    }
  }
}
