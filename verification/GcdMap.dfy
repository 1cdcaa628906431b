/** The GCD memory space map and the interval writes of IA32FamilyCpuPkg/CpuArchDxe/MemoryAttribute.c. */
module GcdMap {

  const MEMORY_UC: bv64 := 0x1
  const MEMORY_WC: bv64 := 0x2
  const MEMORY_WT: bv64 := 0x4
  const MEMORY_WB: bv64 := 0x8
  const MEMORY_WP: bv64 := 0x1000

  /** EFI_MEMORY_CACHETYPE_MASK: UC, WC, WT, WB and UCE, but not WP. */
  const CACHETYPE_MASK: bv64 := 0x1F

  const ONE_MB: nat := 0x10_0000

  /** One descriptor of the map that GetMemorySpaceMap returned. */
  datatype Descriptor = Descriptor(base: nat, length: nat, existent: bool, attributes: bv64, capabilities: bv64)
  {
    predicate Has(x: nat) { base <= x < base + length }

    /** What is written for the cache type t: the original attributes, with the cache type replaced as far
        as the capabilities allow. */
    function Blend(t: bv64): bv64 { (attributes & !CACHETYPE_MASK) | (capabilities & t) }
  }

  function Top(m: seq<Descriptor>): nat {
    if |m| == 0 then 0 else m[|m| - 1].base + m[|m| - 1].length
  }

  /** The map of the DXE core: sorted, without gaps, from address 0 to past the first megabyte. */
  ghost predicate IsMap(m: seq<Descriptor>) {
    && |m| > 0 && m[0].base == 0 && ONE_MB <= Top(m)
    && (forall i :: 0 <= i < |m| ==> m[i].length > 0)
    && (forall i :: 0 <= i < |m| - 1 ==> m[i + 1].base == m[i].base + m[i].length)
  }

  /** The first address not in the first i descriptors. */
  function Edge(m: seq<Descriptor>, i: nat): nat {
    if i < |m| then m[i].base else Top(m)
  }

  lemma {:induction false} Sorted(m: seq<Descriptor>, i: nat, j: nat)
    requires IsMap(m) && i < j <= |m|
    ensures m[i].base + m[i].length <= Edge(m, j)
  {
    if i < j - 1 { Sorted(m, i, j - 1); }
    assert j < |m| ==> m[j - 1 + 1].base == m[j - 1].base + m[j - 1].length;
  }

  /** The GCD services: the attributes of every address.  SetMemorySpaceAttributes succeeds. */
  class Gcd {
    var attributes: nat -> bv64

    method SetMemorySpaceAttributes(base: nat, length: nat, a: bv64)
      modifies this
      ensures forall x: nat :: attributes(x) == if base <= x < base + length then a else old(attributes)(x)
    {
      var was := attributes;
      attributes := (x: nat) => if base <= x < base + length then a else was(x);
    }
  }

  /** From was to now, the cache type a has been written at the existing addresses of [base, base + length). */
  ghost predicate Writes(m: seq<Descriptor>, was: nat -> bv64, now: nat -> bv64, base: nat, length: nat, a: bv64) {
    && (forall i, x: nat :: 0 <= i < |m| && m[i].Has(x) ==>
      now(x) == if m[i].existent && base <= x < base + length then m[i].Blend(a) else was(x))
    && forall x: nat :: Top(m) <= x ==> now(x) == was(x)
  }

  /** SearchGcdMemorySpaces finds the descriptors of a range exactly when the range ends inside the map. */
  method SearchGcdMemorySpaces(m: seq<Descriptor>, base: nat, length: nat)
    returns (found: bool, startIndex: nat, endIndex: nat)
    requires IsMap(m) && length > 0
    ensures found <==> base + length <= Top(m)
    ensures found ==> startIndex <= endIndex < |m| && m[startIndex].Has(base) && m[endIndex].Has(base + length - 1)
  {
    startIndex, endIndex := 0, 0;
    for index := 0 to |m|
      invariant base + length - 1 >= Edge(m, index)
      invariant base < Edge(m, index) ==> startIndex < index && m[startIndex].Has(base)
      invariant endIndex == 0
    {
      if base >= m[index].base && base < m[index].base + m[index].length {
        startIndex := index;
      }
      if base + length - 1 >= m[index].base && base + length - 1 < m[index].base + m[index].length {
        Sorted(m, index, |m|);
        return true, startIndex, index;
      }
    }
    return false, startIndex, endIndex;
  }

  /** The overlap of the range with one descriptor, lines 241-264. */
  method SetOverlap(gcd: Gcd, d: Descriptor, base: nat, length: nat, a: bv64)
    requires length > 0 && d.base < base + length && base < d.base + d.length
    modifies gcd
    ensures forall x: nat :: gcd.attributes(x)
                          == if d.existent && d.Has(x) && base <= x < base + length then d.Blend(a)
                             else old(gcd.attributes)(x)
  {
    if !d.existent { return; }
    var regionStart := if base >= d.base then base else d.base;
    var regionLength := if base + length - 1 < d.base + d.length then base + length - regionStart
                        else d.base + d.length - regionStart;
    gcd.SetMemorySpaceAttributes(regionStart, regionLength, d.Blend(a));
  }

  /** The writes made so far, from descriptor lo to just before descriptor hi. */
  ghost predicate WritesSome(m: seq<Descriptor>, was: nat -> bv64, now: nat -> bv64, base: nat, length: nat, a: bv64,
                             lo: nat, hi: nat)
  {
    && lo <= hi <= |m| && lo < |m|
    && (forall i, x: nat :: lo <= i < hi && m[i].Has(x) ==>
      now(x) == if m[i].existent && base <= x < base + length then m[i].Blend(a) else was(x))
    && forall x: nat :: x < m[lo].base || Edge(m, hi) <= x ==> now(x) == was(x)
  }

  lemma OneMore(m: seq<Descriptor>, was: nat -> bv64, now: nat -> bv64, next: nat -> bv64, base: nat, length: nat,
                a: bv64, lo: nat, k: nat)
    requires IsMap(m) && k < |m| && WritesSome(m, was, now, base, length, a, lo, k)
    requires forall x: nat ::
      next(x) == if m[k].existent && m[k].Has(x) && base <= x < base + length then m[k].Blend(a) else now(x)
    ensures WritesSome(m, was, next, base, length, a, lo, k + 1)
  {
    hide Descriptor.Blend, IsMap;
    if lo < k { Sorted(m, lo, k); }
    Sorted(m, k, k + 1);
    forall i, x: nat | lo <= i < k + 1 && m[i].Has(x)
      ensures next(x) == if m[i].existent && base <= x < base + length then m[i].Blend(a) else was(x)
    {
      if i < k { Sorted(m, i, k); }
    }
  }

  /** Lines 241-264 for one descriptor of the range. */
  method SetOne(gcd: Gcd, m: seq<Descriptor>, base: nat, length: nat, a: bv64, ghost lo: nat, index: nat, ghost hi: nat,
                ghost was: nat -> bv64)
    requires IsMap(m) && length > 0 && lo <= index <= hi < |m| && m[lo].Has(base) && m[hi].Has(base + length - 1)
    requires WritesSome(m, was, gcd.attributes, base, length, a, lo, index)
    modifies gcd
    ensures WritesSome(m, was, gcd.attributes, base, length, a, lo, index + 1)
  {
    hide WritesSome, IsMap, Descriptor.Blend;
    if lo < index { Sorted(m, lo, index); }
    if index < hi { Sorted(m, index, hi); }
    ghost var now := gcd.attributes;
    SetOverlap(gcd, m[index], base, length, a);
    OneMore(m, was, now, gcd.attributes, base, length, a, lo, index);
  }

  lemma Assembled(m: seq<Descriptor>, was: nat -> bv64, now: nat -> bv64, base: nat, length: nat, a: bv64, lo: nat,
                  hi: nat)
    requires IsMap(m) && length > 0 && lo <= hi < |m| && m[lo].Has(base) && m[hi].Has(base + length - 1)
    requires WritesSome(m, was, now, base, length, a, lo, hi + 1)
    ensures Writes(m, was, now, base, length, a)
  {
    Sorted(m, hi, hi + 1);
    if hi + 1 < |m| { Sorted(m, hi + 1, |m|); }
    Sorted(m, lo, |m|);
    forall i, x: nat | 0 <= i < |m| && m[i].Has(x)
      ensures now(x) == if m[i].existent && base <= x < base + length then m[i].Blend(a) else was(x)
    {
      if i < lo { Sorted(m, i, lo); }
      if hi < i { Sorted(m, hi, i); }
    }
  }

  /** SetGcdMemorySpaceAttributes writes the existing part of the range, descriptor by descriptor, or, when
      the range reaches past the end of the map, nothing at all. */
  method SetGcdMemorySpaceAttributes(gcd: Gcd, m: seq<Descriptor>, base: nat, length: nat, a: bv64)
    returns (found: bool)
    requires IsMap(m) && length > 0
    modifies gcd
    ensures found <==> base + length <= Top(m)
    ensures if found then Writes(m, old(gcd.attributes), gcd.attributes, base, length, a)
            else gcd.attributes == old(gcd.attributes)
  {
    var startIndex, endIndex;
    found, startIndex, endIndex := SearchGcdMemorySpaces(m, base, length);
    if !found { return; }
    hide IsMap, Writes, Edge;
    ghost var was := gcd.attributes;
    for index := startIndex to endIndex + 1
      invariant WritesSome(m, was, gcd.attributes, base, length, a, startIndex, index)
    {
      SetOne(gcd, m, base, length, a, startIndex, index, endIndex, was);
    }
    Assembled(m, was, gcd.attributes, base, length, a, startIndex, endIndex);
  }
}
