/** FindSmramInfo of IA32FamilyCpuPkg/PiSmmCpuDxeSmm/PiSmmCpuDxeSmm.c (lines 1166-1218): the SMRAM around the
    largest usable region. */
module SmramRange {

  const BASE_1MB: nat := 0x10_0000
  const BASE_4GB: nat := 0x1_0000_0000
  const LEAST_SIZE: nat := 0x4_0000 - 0x1000

  /** The cast to UINT32. */
  function ToUint32(x: nat): (r: nat)
    ensures r < BASE_4GB && (x < BASE_4GB ==> r == x) && (BASE_4GB <= x < 2 * BASE_4GB ==> r == x - BASE_4GB)
  {
    x % BASE_4GB
  }

  /** EFI_SMRAM_DESCRIPTOR; `usable` means not allocated and needing neither testing nor ECC initialization. */
  datatype Descriptor = Descriptor(start: nat, size: nat, usable: bool)
  {
    function End(): nat { start + size }

    predicate Has(x: int) { start <= x < End() }

    /** Between 1MB and 4GB, and at least 256KB - 4KB. */
    predicate Eligible() { usable && start >= 0x10_0000 && End() <= 0x1_0000_0000 && size >= 0x3_F000 }
  }

  /** Nonempty descriptors do not overlap, and none crosses 4GB. */
  ghost predicate Proper(d: seq<Descriptor>) {
    && (forall i, j :: 0 <= i < j < |d| && d[i].size > 0 && d[j].size > 0 ==>
      d[i].End() <= d[j].start || d[j].End() <= d[i].start)
    && (forall i :: 0 <= i < |d| ==> d[i].End() <= BASE_4GB || d[i].start >= BASE_4GB)
  }

  ghost predicate Covered(d: seq<Descriptor>, x: int) { exists i :: 0 <= i < |d| && d[i].Has(x) }

  /** Everything below 4GB is SMRAM. */
  ghost predicate AllCovered(d: seq<Descriptor>) { forall x :: 0 <= x < BASE_4GB ==> Covered(d, x) }

  ghost predicate StartsAt(d: seq<Descriptor>, x: nat) {
    exists i :: 0 <= i < |d| && d[i].size > 0 && d[i].start == x
  }

  /** Some region ends at x, or at 4GB when x is 0. */
  ghost predicate EndsAt(d: seq<Descriptor>, x: nat) {
    exists i :: 0 <= i < |d| && d[i].size > 0 && d[i].End() <= BASE_4GB && ToUint32(d[i].End()) == x
  }

  /** The SMRAM around descriptor k reaches up to 4GB, and there is SMRAM at address 0. */
  ghost predicate Wraps(d: seq<Descriptor>, k: nat)
    requires k < |d|
  {
    (forall x :: d[k].start <= x < BASE_4GB ==> Covered(d, x)) && StartsAt(d, 0)
  }

  /** Lines 1169-1186: the largest eligible descriptor, the last one of that size. */
  method FindLargest(d: seq<Descriptor>) returns (found: bool, k: nat)
    ensures found <==> exists i :: 0 <= i < |d| && d[i].Eligible()
    ensures found ==> k < |d| && d[k].Eligible()
    ensures found ==> forall i :: 0 <= i < |d| && d[i].Eligible() ==>
      d[i].size <= d[k].size && (k < i ==> d[i].size < d[k].size)
  {
    found, k := false, 0;
    var maxSize := LEAST_SIZE;
    for index := 0 to |d|
      invariant found <==> exists i :: 0 <= i < index && d[i].Eligible()
      invariant if found then k < index && d[k].Eligible() && maxSize == d[k].size else maxSize == LEAST_SIZE
      invariant found ==> forall i :: 0 <= i < index && d[i].Eligible() ==>
        d[i].size <= maxSize && (k < i ==> d[i].size < maxSize)
    {
      if d[index].usable && d[index].start >= BASE_1MB && d[index].start + d[index].size <= BASE_4GB {
        if d[index].size >= maxSize {
          maxSize := d[index].size;
          found, k := true, index;
        }
      }
    }
  }

  lemma OneOwner(d: seq<Descriptor>, i: nat, j: nat, x: nat)
    requires Proper(d) && i < |d| && j < |d| && d[i].Has(x) && d[j].Has(x)
    ensures i == j
  {
  }

  // ---- one descriptor, one pass ----

  predicate AbutsBelow(e: Descriptor, base: nat) { e.start < base == e.End() }

  /** The sum of line 1200 has 32 bits. */
  predicate AbutsAbove(e: Descriptor, base: nat, size: nat) { ToUint32(base + size) == e.start && e.size > 0 }

  predicate Abuts(e: Descriptor, base: nat, size: nat) { AbutsBelow(e, base) || AbutsAbove(e, base, size) }

  ghost predicate NothingAbuts(d: seq<Descriptor>, base: nat, size: nat) {
    forall i :: 0 <= i < |d| ==> !Abuts(d[i], base, size)
  }

  /** Lines 1196-1203 */
  function Absorb(e: Descriptor, base: nat, size: nat): (nat, nat) {
    if AbutsBelow(e, base) then (ToUint32(e.start), ToUint32(size + e.size))
    else if AbutsAbove(e, base, size) then (base, ToUint32(size + e.size))
    else (base, size)
  }

  /** Lines 1194-1204 from descriptor i on; the last part is Found. */
  ghost function Pass(d: seq<Descriptor>, i: nat, base: nat, size: nat): (nat, nat, bool)
    requires i <= |d|
    decreases |d| - i
  {
    if i == |d| then (base, size, false) else
    var next := Absorb(d[i], base, size);
    var rest := Pass(d, i + 1, next.0, next.1);
    (rest.0, rest.1, rest.2 || Abuts(d[i], base, size))
  }

  method OnePass(d: seq<Descriptor>, base0: nat, size0: nat) returns (base: nat, size: nat, found: bool)
    ensures (base, size, found) == Pass(d, 0, base0, size0)
  {
    base, size, found := base0, size0, false;
    for index := 0 to |d|
      invariant var rest := Pass(d, index, base, size);
        Pass(d, 0, base0, size0) == (rest.0, rest.1, rest.2 || found)
    {
      var e := d[index];
      if e.start < base && base == e.start + e.size {
        base, size, found := ToUint32(e.start), ToUint32(size + e.size), true;
      } else if ToUint32(base + size) == e.start && e.size > 0 {
        size, found := ToUint32(size + e.size), true;
      }
    }
  }

  /** An unproductive pass changes nothing, and nothing abuts. */
  lemma {:induction false} QuietPass(d: seq<Descriptor>, i: nat, base: nat, size: nat)
    requires i <= |d|
    ensures !Pass(d, i, base, size).2 ==> Pass(d, i, base, size) == (base, size, false)
    ensures !Pass(d, i, base, size).2 <==> forall j :: i <= j < |d| ==> !Abuts(d[j], base, size)
    decreases |d| - i
  {
    if i < |d| && !Abuts(d[i], base, size) {
      QuietPass(d, i + 1, base, size);
    }
  }

  // ---- the range as an arc of the 32-bit circle ----

  /** [base, base + size) contains descriptor k, is SMRAM throughout, modulo 4GB, and both its ends are ends of
      regions. */
  ghost predicate IsArc(d: seq<Descriptor>, k: nat, base: nat, size: nat) {
    && k < |d| && d[k].size > 0 && d[k].End() <= BASE_4GB
    && base <= d[k].start && d[k].End() <= base + size && size < BASE_4GB
    && (forall x :: base <= x < base + size ==> Covered(d, ToUint32(x)))
    && IsAligned(d, base, size)
  }

  ghost predicate IsAligned(d: seq<Descriptor>, base: nat, size: nat) {
    base < BASE_4GB && size < BASE_4GB && StartsAt(d, base) && EndsAt(d, ToUint32(base + size))
  }

  predicate OnArc(e: Descriptor, base: nat, end: nat) {
    (base <= e.start && e.End() <= end) || (base <= e.start + BASE_4GB && e.End() + BASE_4GB <= end)
  }

  /** The number of descriptors that are not on the arc. */
  ghost function Outside(d: seq<Descriptor>, base: nat, end: nat): nat {
    if |d| == 0 then 0 else (if OnArc(d[0], base, end) then 0 else 1) + Outside(d[1..], base, end)
  }

  lemma {:induction false} OutsideShrinks(d: seq<Descriptor>, base: nat, end: nat, base': nat, end': nat)
    requires base' <= base && end <= end'
    ensures Outside(d, base', end') <= Outside(d, base, end) <= |d|
    ensures (exists i :: 0 <= i < |d| && OnArc(d[i], base', end') && !OnArc(d[i], base, end)) ==>
      Outside(d, base', end') < Outside(d, base, end)
  {
    if |d| > 0 {
      OutsideShrinks(d[1..], base, end, base', end');
      if i :| 1 <= i < |d| && OnArc(d[i], base', end') && !OnArc(d[i], base, end) {
        assert d[1..][i - 1] == d[i];
      }
    }
  }

  /** An arc of 4GB is everything. */
  lemma FullCircle(d: seq<Descriptor>, base: nat, size: nat)
    requires base < BASE_4GB <= size && forall x :: base <= x < base + size ==> Covered(d, ToUint32(x))
    ensures AllCovered(d)
  {
    hide ToUint32;
    forall y | 0 <= y < BASE_4GB ensures Covered(d, y) {
      var x := if y >= base then y else y + BASE_4GB;
      assert Covered(d, ToUint32(x));
    }
  }

  /** Absorbing a region keeps the ends of the range at ends of regions. */
  lemma AbsorbAligned(d: seq<Descriptor>, base: nat, size: nat, i: nat)
    requires Proper(d) && IsAligned(d, base, size) && i < |d|
    ensures var next := Absorb(d[i], base, size); IsAligned(d, next.0, next.1)
  {
    hide ToUint32;
    var next := Absorb(d[i], base, size);
    if AbutsBelow(d[i], base) {
      assert ToUint32(next.0 + next.1) == ToUint32(base + size);
      assert d[i].start == next.0;
    } else if AbutsAbove(d[i], base, size) {
      assert ToUint32(next.0 + next.1) == ToUint32(d[i].End());
    }
  }

  /** Unless everything is SMRAM, it lengthens the arc by the region, without overflow. */
  lemma AbsorbGrows(d: seq<Descriptor>, k: nat, base: nat, size: nat, i: nat)
    requires Proper(d) && !AllCovered(d) && IsArc(d, k, base, size) && i < |d| && Abuts(d[i], base, size)
    ensures var next := Absorb(d[i], base, size);
      IsArc(d, k, next.0, next.1) && Outside(d, next.0, next.0 + next.1) < Outside(d, base, base + size)
  {
    hide ToUint32, IsAligned, Outside;
    var next := Absorb(d[i], base, size);
    var below := AbutsBelow(d[i], base);
    var base', size' := if below then d[i].start else base, size + d[i].size;
    forall x | base' <= x < base' + size' ensures Covered(d, ToUint32(x)) {
      if !(base <= x < base + size) { assert d[i].Has(ToUint32(x)); }
    }
    if size' >= BASE_4GB { FullCircle(d, base', size'); }
    AbsorbAligned(d, base, size, i);
    assert next == (base', size');
    assert OnArc(d[i], base', base' + size') && !OnArc(d[i], base, base + size);
    OutsideShrinks(d, base, base + size, base', base' + size');
  }

  /** A pass keeps the arc; a productive one puts at least one more region on it. */
  lemma {:induction false} PassGrows(d: seq<Descriptor>, k: nat, i: nat, base: nat, size: nat)
    requires Proper(d) && !AllCovered(d) && IsArc(d, k, base, size) && i <= |d|
    ensures var next := Pass(d, i, base, size);
      && IsArc(d, k, next.0, next.1)
      && Outside(d, next.0, next.0 + next.1) <= Outside(d, base, base + size)
      && (next.2 ==> Outside(d, next.0, next.0 + next.1) < Outside(d, base, base + size))
    decreases |d| - i
  {
    hide ToUint32, IsAligned, Outside, AllCovered, Proper;
    if i < |d| {
      var next := Absorb(d[i], base, size);
      if Abuts(d[i], base, size) { AbsorbGrows(d, k, base, size, i); }
      PassGrows(d, k, i + 1, next.0, next.1);
    }
  }

  // ---- the result ----

  /** [base, end) is the connected SMRAM around descriptor k below 4GB: all of it is SMRAM, the bytes on either side
      are not. */
  ghost predicate IsComponent(d: seq<Descriptor>, k: nat, base: nat, end: nat) {
    && k < |d| && base <= d[k].start && d[k].End() <= end <= BASE_4GB
    && (forall x :: base <= x < end ==> Covered(d, x))
    && (end < BASE_4GB ==> !Covered(d, end)) && (base > 0 ==> !Covered(d, base - 1))
  }

  /** The component is determined by descriptor k. */
  lemma ComponentIsUnique(d: seq<Descriptor>, k: nat, base: nat, end: nat, base': nat, end': nat)
    requires IsComponent(d, k, base, end) && IsComponent(d, k, base', end') && d[k].size > 0
    ensures base == base' && end == end'
  {
  }

  /** The tests of the loop accept nothing at the connected SMRAM around k, unless that reaches up to 4GB and there is
      SMRAM at address 0. */
  lemma ComponentIsQuietIff(d: seq<Descriptor>, k: nat, base: nat, end: nat)
    requires Proper(d) && IsComponent(d, k, base, end) && d[k].size > 0
    ensures NothingAbuts(d, base, end - base) <==> !Wraps(d, k)
  {
    hide ToUint32;
    var size := end - base;
    if i :| 0 <= i < |d| && Abuts(d[i], base, size) {
      assert AbutsAbove(d[i], base, size);
      assert d[i].Has(ToUint32(end));
      assert end == BASE_4GB;
      assert Wraps(d, k);
    }
    if Wraps(d, k) {
      assert end == BASE_4GB;
      var i :| 0 <= i < |d| && d[i].size > 0 && d[i].start == 0;
      assert AbutsAbove(d[i], base, size);
    }
  }

  /** Where nothing abuts, the range that has not passed 4GB is the connected SMRAM. */
  lemma QuietIsComponent(d: seq<Descriptor>, k: nat, base: nat, size: nat)
    requires Proper(d) && IsArc(d, k, base, size) && NothingAbuts(d, base, size) && base + size <= BASE_4GB
    ensures IsComponent(d, k, base, base + size)
  {
    hide ToUint32, Proper;
    var end := base + size;
    forall x | base <= x < end ensures Covered(d, x) { assert ToUint32(x) == x; }
    var first :| 0 <= first < |d| && d[first].size > 0 && d[first].start == base;
    var last :| 0 <= last < |d| && d[last].size > 0 && d[last].End() <= BASE_4GB
      && ToUint32(d[last].End()) == ToUint32(end);
    if base > 0 && Covered(d, base - 1) {
      var i :| 0 <= i < |d| && d[i].Has(base - 1);
      OneOwner(d, i, first, base);
    }
    if end < BASE_4GB && Covered(d, end) {
      var i :| 0 <= i < |d| && d[i].Has(end);
      OneOwner(d, i, last, end - 1);
    }
  }

  /** A range that has passed 4GB is no component, and there it wraps. */
  lemma PastTheTop(d: seq<Descriptor>, k: nat, base: nat, size: nat)
    requires IsArc(d, k, base, size) && base + size > BASE_4GB
    ensures Wraps(d, k)
  {
    hide ToUint32;
    assert ToUint32(BASE_4GB) == 0 && Covered(d, 0);
    forall x | d[k].start <= x < BASE_4GB ensures Covered(d, x) { assert ToUint32(x) == x; }
  }

  /** The do/while of lines 1193-1205.  Unless everything below 4GB is SMRAM it ends, and it ends with the connected
      SMRAM around descriptor k exactly if that does not reach up to 4GB with SMRAM at address 0.  Else it passes
      4GB and goes on there. */
  method Coalesce(d: seq<Descriptor>, k: nat) returns (base: nat, size: nat)
    requires Proper(d) && k < |d| && d[k].size > 0 && d[k].End() <= BASE_4GB
    requires !AllCovered(d)
    ensures IsComponent(d, k, base, base + size) <==> !Wraps(d, k)
    ensures base + size > BASE_4GB <==> Wraps(d, k)
    ensures forall x :: base <= x < base + size ==> Covered(d, ToUint32(x))
    ensures NothingAbuts(d, base, size)
  {
    hide ToUint32, Pass, Outside, AllCovered, Proper, Abuts;
    base, size := d[k].start, d[k].size;
    forall x | base <= x < base + size ensures Covered(d, ToUint32(x)) {
      assert d[k].Has(x) && ToUint32(x) == x;
    }
    if size >= BASE_4GB { FullCircle(d, base, size); }
    var found := true;
    while found
      invariant IsArc(d, k, base, size)
      invariant !found ==> NothingAbuts(d, base, size)
      decreases Outside(d, base, base + size), if found then 1 else 0
    {
      PassGrows(d, k, 0, base, size);
      QuietPass(d, 0, base, size);
      base, size, found := OnePass(d, base, size);
    }
    if base + size > BASE_4GB {
      PastTheTop(d, k, base, size);
    } else {
      QuietIsComponent(d, k, base, size);
      ComponentIsQuietIff(d, k, base, base + size);
    }
  }

  // ---- when it does not end, or ends elsewhere ----

  /** If everything below 4GB is SMRAM, some region always abuts. */
  lemma AlwaysAbuts(d: seq<Descriptor>, base: nat, size: nat)
    requires Proper(d) && AllCovered(d) && IsAligned(d, base, size)
    ensures !NothingAbuts(d, base, size)
  {
    hide ToUint32;
    var x := ToUint32(base + size);
    var last :| 0 <= last < |d| && d[last].size > 0 && d[last].End() <= BASE_4GB && ToUint32(d[last].End()) == x;
    assert Covered(d, x);
    var i :| 0 <= i < |d| && d[i].Has(x);
    assert d[i].start == x;
    assert Abuts(d[i], base, size);
  }

  lemma {:induction false} PassAligned(d: seq<Descriptor>, i: nat, base: nat, size: nat)
    requires Proper(d) && IsAligned(d, base, size) && i <= |d|
    ensures var next := Pass(d, i, base, size); IsAligned(d, next.0, next.1)
    decreases |d| - i
  {
    hide ToUint32, Proper, IsAligned, Absorb;
    if i < |d| {
      var next := Absorb(d[i], base, size);
      AbsorbAligned(d, base, size, i);
      PassAligned(d, i + 1, next.0, next.1);
    }
  }

  /** n passes in a row find something. */
  ghost predicate RunsOn(d: seq<Descriptor>, base: nat, size: nat, n: nat)
    decreases n
  {
    n == 0 || (var next := Pass(d, 0, base, size); next.2 && RunsOn(d, next.0, next.1, n - 1))
  }

  /** Then every pass finds something. */
  lemma {:induction false} NeverEnds(d: seq<Descriptor>, base: nat, size: nat, n: nat)
    requires Proper(d) && AllCovered(d) && IsAligned(d, base, size)
    ensures RunsOn(d, base, size, n)
    decreases n
  {
    hide ToUint32, Proper, AllCovered, Covered, IsAligned;
    if n > 0 {
      var next := Pass(d, 0, base, size);
      AlwaysAbuts(d, base, size);
      QuietPass(d, 0, base, size);
      PassAligned(d, 0, base, size);
      NeverEnds(d, next.0, next.1, n - 1);
    }
  }

  /** So the loop of lines 1193-1205 never ends. */
  lemma LoopNeverEnds(d: seq<Descriptor>, k: nat, n: nat)
    requires Proper(d) && AllCovered(d) && k < |d| && d[k].Eligible()
    ensures RunsOn(d, d[k].start, d[k].size, n)
  {
    assert ToUint32(d[k].start + d[k].size) == ToUint32(d[k].End());
    NeverEnds(d, d[k].start, d[k].size, n);
  }

  /** The last megabyte below 4GB, and a page at address 0: the loop takes the page for adjacent. */
  lemma WrapLeavesTheComponent()
    ensures var d := [Descriptor(0xFFF0_0000, 0x10_0000, true), Descriptor(0, 0x1000, false)];
      && Proper(d) && d[0].Eligible() && !AllCovered(d) && IsComponent(d, 0, 0xFFF0_0000, BASE_4GB)
      && Pass(d, 0, 0xFFF0_0000, 0x10_0000) == (0xFFF0_0000, 0x10_1000, true)
      && Pass(d, 0, 0xFFF0_0000, 0x10_1000) == (0xFFF0_0000, 0x10_1000, false)
  {
    var d := [Descriptor(0xFFF0_0000, 0x10_0000, true), Descriptor(0, 0x1000, false)];
    assert !Covered(d, 0x1000);
    forall x | 0xFFF0_0000 <= x < BASE_4GB ensures Covered(d, x) { assert d[0].Has(x); }
    assert Pass(d, 2, 0xFFF0_0000, 0x10_1000) == (0xFFF0_0000, 0x10_1000, false);
  }

  /** FindSmramInfo: the largest eligible region k, what the loop makes of it, and (with IED) the IED region on top;
      `plain` is the size before the IED adjustment. */
  method FindSmramInfo(d: seq<Descriptor>, ied: bool, iedSize: nat)
    returns (found: bool, base: nat, size: nat, iedBase: nat, ghost k: nat, ghost plain: nat)
    requires Proper(d) && (AllCovered(d) ==> forall i :: 0 <= i < |d| ==> !d[i].Eligible())
    ensures found <==> exists i :: 0 <= i < |d| && d[i].Eligible()
    ensures found ==> k < |d| && d[k].Eligible()
    ensures found ==> forall i :: 0 <= i < |d| && d[i].Eligible() ==> d[i].size <= d[k].size
    ensures found ==> (IsComponent(d, k, base, base + plain) <==> !Wraps(d, k))
    ensures found ==> (base + plain > BASE_4GB <==> Wraps(d, k))
    ensures found ==> if ied then iedBase == ToUint32(base + plain) && size == ToUint32(plain + iedSize)
                      else iedBase == BASE_4GB - 1 && size == plain
  {
    base, size, iedBase, plain := 0, 0, 0, 0;
    var largest;
    found, largest := FindLargest(d);
    k := largest;
    if !found { return; }
    base, size := Coalesce(d, largest);
    plain := size;
    if ied {
      iedBase := ToUint32(base + size);
      size := ToUint32(size + iedSize);
    } else {
      iedBase := BASE_4GB - 1;
    }
  }
}
