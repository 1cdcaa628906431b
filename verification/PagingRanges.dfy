/** The protected and split memory ranges of the SMM profile page table:
    IA32FamilyCpuPkg/PiSmmCpuDxeSmm/SmmProfile.c, lines 244-425. */
module PagingRanges {

  const SIZE_4KB: nat := 0x1000
  const SIZE_2MB: nat := 0x20_0000

  /** MEMORY_RANGE: the addresses from base up to, not including, top. */
  datatype Range = Range(base: nat, top: nat)
  {
    predicate Has(a: nat) { base <= a < top }
  }

  /** MEMORY_PROTECTION_RANGE */
  datatype Protection = Protection(range: Range, present: bool, nx: bool)

  /** A descriptor of the GCD memory space map. */
  datatype Descriptor = Descriptor(base: nat, length: nat, mmio: bool)

  function Down2M(a: nat): nat { a - a % SIZE_2MB }

  function Up2M(a: nat): nat { Down2M(a + SIZE_2MB - 1) }

  // ---- searching ----

  /** The first range that has a, or the number of ranges. */
  function First(r: seq<Protection>, a: nat): (k: nat)
    ensures k <= |r| && (k < |r| ==> r[k].range.Has(a))
    ensures forall j :: 0 <= j < k ==> !r[j].range.Has(a)
  {
    if |r| == 0 then 0
    else if r[0].range.Has(a) then 0
    else
      var k := First(r[1..], a);
      assert forall j :: 1 <= j < k + 1 ==> r[j] == r[1..][j - 1];
      k + 1
  }

  predicate Valid(r: seq<Protection>, a: nat) {
    First(r, a) < |r| && r[First(r, a)].present
  }

  predicate Nx(r: seq<Protection>, a: nat) {
    First(r, a) < |r| && r[First(r, a)].nx
  }

  predicate Split(s: seq<Range>, a: nat) {
    exists k :: 0 <= k < |s| && s[k].Has(a)
  }

  method IsAddressValid(r: seq<Protection>, address: nat) returns (valid: bool, nx: bool)
    ensures valid == Valid(r, address) && nx == Nx(r, address)
  {
    for index := 0 to |r|
      invariant forall j :: 0 <= j < index ==> !r[j].range.Has(address)
    {
      if address >= r[index].range.base && address < r[index].range.top {
        return r[index].present, r[index].nx;
      }
    }
    return false, false;
  }

  method IsAddressSplit(s: seq<Range>, address: nat) returns (split: bool)
    ensures split == Split(s, address)
  {
    for index := 0 to |s|
      invariant forall j :: 0 <= j < index ==> !s[j].Has(address)
    {
      if address >= s[index].base && address < s[index].top {
        return true;
      }
    }
    return false;
  }

  // ---- the ranges ----

  /** The MMIO descriptors, present and not executable. */
  function MmioRanges(d: seq<Descriptor>): seq<Protection> {
    if |d| == 0 then [] else
    var last := d[|d| - 1];
    MmioRanges(d[..|d| - 1])
    + (if last.mmio then [Protection(Range(last.base, last.base + last.length), true, true)] else [])
  }

  function MmioCount(d: seq<Descriptor>): nat {
    if |d| == 0 then 0 else MmioCount(d[..|d| - 1]) + (if d[|d| - 1].mmio then 1 else 0)
  }

  /** One range for each MMIO descriptor, in their order: all of it, present, not executable. */
  lemma {:induction false} MmioRangeOf(d: seq<Descriptor>, i: nat)
    requires i < |d| && d[i].mmio
    ensures |MmioRanges(d)| == MmioCount(d) && MmioCount(d[..i]) < MmioCount(d)
    ensures var r := MmioRanges(d)[MmioCount(d[..i])];
      r.range.base == d[i].base && r.range.top == d[i].base + d[i].length && r.present && r.nx
  {
    var rest := d[..|d| - 1];
    MmioLength(rest);
    if i < |d| - 1 {
      MmioRangeOf(rest, i);
      assert rest[..i] == d[..i];
    }
  }

  lemma {:induction false} MmioLength(d: seq<Descriptor>)
    ensures |MmioRanges(d)| == MmioCount(d)
  {
    if |d| > 0 { MmioLength(d[..|d| - 1]); }
  }

  /** The parts of a protected range to be mapped by 4KB pages: the 2MB pages that the range covers partly. */
  function SplitsOf(r: Range): seq<Range> {
    if r.base % SIZE_2MB == 0 && r.top % SIZE_2MB == 0 then []
    else if Down2M(r.top) > Up2M(r.base) then
      (if r.top % SIZE_2MB != 0 then [Range(Down2M(r.top), Up2M(r.top))] else []) +
      (if r.base % SIZE_2MB != 0 then [Range(Down2M(r.base), Up2M(r.base))] else [])
    else [Range(Down2M(r.base), Up2M(r.top))]
  }

  function Splits(r: seq<Protection>): seq<Range> {
    if |r| == 0 then [] else Splits(r[..|r| - 1]) + SplitsOf(r[|r| - 1].range)
  }

  lemma Aligned(a: nat)
    ensures Down2M(a) % SIZE_2MB == 0 && Up2M(a) % SIZE_2MB == 0
    ensures Down2M(a) <= a < Down2M(a) + SIZE_2MB
    ensures if a % SIZE_2MB == 0 then Down2M(a) == Up2M(a) == a else Up2M(a) == Down2M(a) + SIZE_2MB
  {
  }

  /** Lines 382-422: the split ranges of one protected range, as long as they fit into the allocated slots. */
  method AddSplits(split: array<Range>, n: nat, r: Range) returns (n': nat, fits: bool)
    requires n <= split.Length
    modifies split
    ensures fits <==> n + |SplitsOf(r)| <= split.Length
    ensures fits ==> n' == n + |SplitsOf(r)| && split[..n'] == old(split[..n]) + SplitsOf(r)
  {
    n', fits := n, true;
    Aligned(r.base);
    Aligned(r.top);
    if r.base % SIZE_2MB != 0 || r.top % SIZE_2MB != 0 {
      var top2MBAligned := Down2M(r.top);
      var base2MBAligned := Up2M(r.base);
      if top2MBAligned > base2MBAligned && top2MBAligned - base2MBAligned >= SIZE_2MB {
        var high4KBPageSize := Up2M(r.top) - Down2M(r.top);
        var low4KBPageSize := Up2M(r.base) - Down2M(r.base);
        if high4KBPageSize != 0 {
          if n' == split.Length { return n', false; }
          split[n'] := Range(Down2M(r.top), Up2M(r.top));
          n' := n' + 1;
        }
        if low4KBPageSize != 0 {
          if n' == split.Length { return n', false; }
          split[n'] := Range(Down2M(r.base), Up2M(r.base));
          n' := n' + 1;
        }
      } else {
        if n' == split.Length { return n', false; }
        split[n'] := Range(Down2M(r.base), Up2M(r.top));
        n' := n' + 1;
      }
    }
  }

  /** Lines 333-371 */
  method CollectRanges(template: seq<Protection>, d: seq<Descriptor>) returns (ranges: seq<Protection>)
    ensures ranges == if MmioRanges(d) == [] then [] else template + MmioRanges(d)
  {
    var mmioCount: nat := 0;
    for index := 0 to |d|
      invariant mmioCount == |MmioRanges(d[..index])|
    {
      assert d[..index + 1][..index] == d[..index];
      if d[index].mmio { mmioCount := mmioCount + 1; }
    }
    assert d[..|d|] == d;
    ranges := [];
    if mmioCount != 0 {
      ranges := template;
      for index := 0 to |d|
        invariant ranges == template + MmioRanges(d[..index])
      {
        assert d[..index + 1][..index] == d[..index];
        if d[index].mmio {
          ranges := ranges + [Protection(Range(d[index].base, d[index].base + d[index].length), true, true)];
        }
      }
    }
  }

  /** InitProtectedMemRange.  Without MMIO descriptors there are no ranges at all; otherwise one split slot is
      allocated for each range.  That is enough exactly when no more ranges need two slots than need none; else the
      source writes past the allocation, and the model stops at the first such write. */
  method InitProtectedMemRange(template: seq<Protection>, d: seq<Descriptor>)
    returns (ranges: seq<Protection>, split: array<Range>, splitCount: nat, fits: bool)
    requires |template| == 2
    ensures ranges == if MmioRanges(d) == [] then [] else template + MmioRanges(d)
    ensures fits <==> Count(ranges, NeedsTwo) <= Count(ranges, NeedsNone)
    ensures fits ==> splitCount <= split.Length && split[..splitCount] == Splits(ranges)
  {
    hide SplitsOf, MmioRanges, Count, NeedsNone, NeedsTwo;
    ranges := CollectRanges(template, d);
    split := new Range[|ranges|];
    splitCount, fits := 0, true;
    EnoughSlots(ranges);
    for index := 0 to |ranges|
      invariant fits && splitCount <= split.Length && split[..splitCount] == Splits(ranges[..index])
    {
      assert ranges[..index + 1][..index] == ranges[..index];
      SplitsGrow(ranges, index + 1);
      splitCount, fits := AddSplits(split, splitCount, ranges[index].range);
      if !fits { return; }
    }
    assert ranges[..|ranges|] == ranges;
  }

  /** The slots used for some of the ranges are no more than those used for all. */
  lemma {:induction false} SplitsGrow(r: seq<Protection>, k: nat)
    requires k <= |r|
    ensures Splits(r[..k]) <= Splits(r)
    decreases |r|
  {
    if k < |r| {
      SplitsGrow(r[..|r| - 1], k);
      assert r[..|r| - 1][..k] == r[..k];
    } else {
      assert r[..k] == r;
    }
  }

  // ---- which 2MB pages are split ----

  /** Range r has some addresses of the 2MB page at a, but not all. */
  ghost predicate CoversPartly(r: Range, a: nat) {
    exists x :: a <= x < a + SIZE_2MB && r.Has(x) != r.Has(a)
  }

  /** Exactly the 2MB pages that a (nonempty) range covers partly are split. */
  lemma SplitIsPartial(r: Range, a: nat)
    requires r.base < r.top && a % SIZE_2MB == 0
    ensures Split(SplitsOf(r), a) <==> CoversPartly(r, a)
  {
    Aligned(r.base);
    Aligned(r.top);
    if Split(SplitsOf(r), a) {
      if a < r.base { assert r.Has(r.base) != r.Has(a); } else { assert r.Has(a + SIZE_2MB - 1) != r.Has(a); }
    } else {
      forall x | a <= x < a + SIZE_2MB ensures r.Has(x) == r.Has(a) {
        UnsplitRange(r, a, x);
      }
    }
  }

  lemma Multiples(a: nat, b: nat)
    requires a % SIZE_2MB == 0 && b % SIZE_2MB == 0
    ensures a < b ==> a + SIZE_2MB <= b
    ensures b < a ==> b + SIZE_2MB <= a
  {
  }

  /** A 2MB page that is not split lies wholly inside or wholly outside the range, whatever its alignment. */
  lemma UnsplitRange(r: Range, a: nat, x: nat)
    requires a % SIZE_2MB == 0 && a <= x < a + SIZE_2MB && !Split(SplitsOf(r), a)
    ensures r.Has(x) == r.Has(a)
  {
    Aligned(r.base);
    Aligned(r.top);
    Multiples(a, Down2M(r.base));
    Multiples(a, Down2M(r.top));
    NotIn(r, a);
  }

  lemma NotIn(r: Range, a: nat)
    requires !Split(SplitsOf(r), a)
    ensures NeedsNone(r) || (if Down2M(r.top) > Up2M(r.base)
                            then (r.top % SIZE_2MB != 0 ==> !(Down2M(r.top) <= a < Up2M(r.top)))
                              && (r.base % SIZE_2MB != 0 ==> !(Down2M(r.base) <= a < Up2M(r.base)))
                            else !(Down2M(r.base) <= a < Up2M(r.top)))
  {
    var s := SplitsOf(r);
    assert |s| > 0 ==> !s[0].Has(a);
    assert |s| > 1 ==> !s[1].Has(a);
  }

  lemma {:induction false} SplitFrom(r: seq<Protection>, i: nat, a: nat)
    requires i < |r| && Split(SplitsOf(r[i].range), a)
    ensures Split(Splits(r), a)
  {
    var before, last := Splits(r[..|r| - 1]), SplitsOf(r[|r| - 1].range);
    if i < |r| - 1 {
      SplitFrom(r[..|r| - 1], i, a);
      var k :| 0 <= k < |before| && before[k].Has(a);
      assert Splits(r)[k] == before[k];
    } else {
      var k :| 0 <= k < |last| && last[k].Has(a);
      assert Splits(r)[|before| + k] == last[k];
    }
  }

  /** All addresses of an unsplit 2MB page have the same first range. */
  lemma UnsplitUniform(r: seq<Protection>, a: nat, x: nat)
    requires a % SIZE_2MB == 0 && a <= x < a + SIZE_2MB && !Split(Splits(r), a)
    ensures First(r, x) == First(r, a)
  {
    forall i | 0 <= i < |r| ensures r[i].range.Has(x) == r[i].range.Has(a) {
      if Split(SplitsOf(r[i].range), a) { SplitFrom(r, i, a); }
      UnsplitRange(r[i].range, a, x);
    }
  }

  /** When all bounds are 4KB aligned, so do all bytes of a 4KB page. */
  lemma AlignedUniform(r: seq<Protection>, a: nat, x: nat)
    requires forall i :: 0 <= i < |r| ==> r[i].range.base % SIZE_4KB == 0 && r[i].range.top % SIZE_4KB == 0
    requires a % SIZE_4KB == 0 && a <= x < a + SIZE_4KB
    ensures First(r, x) == First(r, a)
  {
  }

  // ---- are there enough split slots? ----

  predicate NeedsNone(r: Range) { r.base % SIZE_2MB == 0 && r.top % SIZE_2MB == 0 }

  predicate NeedsTwo(r: Range) { r.base % SIZE_2MB != 0 && r.top % SIZE_2MB != 0 && Down2M(r.top) > Up2M(r.base) }

  function Count(r: seq<Protection>, p: Range -> bool): nat {
    if |r| == 0 then 0 else Count(r[..|r| - 1], p) + (if p(r[|r| - 1].range) then 1 else 0)
  }

  lemma {:induction false} SlotBalance(r: seq<Protection>)
    ensures |Splits(r)| + Count(r, NeedsNone) == |r| + Count(r, NeedsTwo)
  {
    if |r| > 0 { SlotBalance(r[..|r| - 1]); }
  }

  /** One slot per range is enough exactly when at least as many ranges need none as need two. */
  lemma EnoughSlots(r: seq<Protection>)
    ensures |Splits(r)| <= |r| <==> Count(r, NeedsTwo) <= Count(r, NeedsNone)
  {
    SlotBalance(r);
  }
}
