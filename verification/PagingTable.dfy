/** InitPaging of IA32FamilyCpuPkg/PiSmmCpuDxeSmm/SmmProfile.c (lines 443-576): the mixed 2MB and 4KB page
    table equals a flat table with one rule per 4KB page. */
module PagingTable {
  import opened PagingRanges

  /** A page table entry: the frame address, the flags that InitPaging changes, and the others. */
  datatype Entry = Entry(frame: nat, present: bool, writable: bool, nx: bool, other: nat)

  /** An entry of a page directory: a 2MB page, a page table of 512 entries with the flags of the entry that
      points to it, or zero. */
  datatype Slot = Big(page: Entry) | Table(present: bool, writable: bool, nx: bool, pt: seq<Entry>) | Zero

  const ENTRIES: nat := 512

  ghost predicate WellFormed(s: Slot) {
    s.Table? ==> |s.pt| == ENTRIES
  }

  /** The address of 2MB page k (line 494), and of its 4KB page j. */
  function Address(k: nat): nat { k * SIZE_2MB }

  function PageAddress(k: nat, j: nat): nat { k * SIZE_2MB + j * SIZE_4KB }

  /** The entry of line 512: present and writable, nothing else. */
  function Fresh(frame: nat): Entry { Entry(frame, true, true, false, 0) }

  function Patch(e: Entry, valid: bool, nx: bool): Entry {
    e.(present := e.present && valid, writable := e.writable && valid, nx := e.nx || nx)
  }

  // ---- the two passes, slot by slot ----

  /** What the first pass makes of slot k. */
  function SplitSlot(s: Slot, k: nat, splits: seq<Range>): Slot {
    if s.Big? && Split(splits, Address(k))
    then Table(true, true, false, seq(ENTRIES, (j: nat) => Fresh(PageAddress(k, j))))
    else s
  }

  /** What the second pass makes of slot k. */
  function PatchSlot(s: Slot, k: nat, r: seq<Protection>, xd: bool): Slot {
    match s
    case Big(e) => Big(Patch(e, Valid(r, Address(k)), Nx(r, Address(k)) && xd))
    case Table(present, writable, nx, pt) =>
      Table(present, writable, nx, seq(|pt|, (j: nat) requires j < |pt| =>
        Patch(pt[j], Valid(r, PageAddress(k, j)), Nx(r, PageAddress(k, j)) && xd)))
    case Zero => Zero
  }

  // ---- the code ----

  /** Lines 505-513 */
  method SplitPage(k: nat) returns (pt: seq<Entry>)
    ensures |pt| == ENTRIES && forall j :: 0 <= j < ENTRIES ==> pt[j] == Fresh(PageAddress(k, j))
  {
    pt := [];
    for level4 := 0 to ENTRIES
      invariant |pt| == level4 && forall j :: 0 <= j < level4 ==> pt[j] == Fresh(PageAddress(k, j))
    {
      pt := pt + [Fresh(Address(k) + level4 * SIZE_4KB)];
    }
  }

  /** Lines 554-563 */
  method PatchTable(k: nat, before: seq<Entry>, r: seq<Protection>, xd: bool) returns (pt: seq<Entry>)
    ensures |pt| == |before|
    ensures forall j :: 0 <= j < |pt| ==>
      pt[j] == Patch(before[j], Valid(r, PageAddress(k, j)), Nx(r, PageAddress(k, j)) && xd)
  {
    pt := before;
    var address := Address(k);
    for level4 := 0 to |pt|
      invariant |pt| == |before| && address == PageAddress(k, level4)
      invariant forall j :: 0 <= j < level4 ==>
        pt[j] == Patch(before[j], Valid(r, PageAddress(k, j)), Nx(r, PageAddress(k, j)) && xd)
      invariant forall j :: level4 <= j < |pt| ==> pt[j] == before[j]
    {
      var valid, nx := IsAddressValid(r, address);
      if !valid { pt := pt[level4 := pt[level4].(present := false, writable := false)]; }
      if nx && xd { pt := pt[level4 := pt[level4].(nx := true)]; }
      address := address + SIZE_4KB;
    }
  }

  /** Lines 482-517: the first pass. */
  method SplitPages(dirs: seq<bool>, pd: array<Slot>, splits: seq<Range>)
    requires pd.Length == |dirs| * ENTRIES
    requires forall k :: 0 <= k < pd.Length && dirs[k / ENTRIES] && pd[k].Big? && Split(splits, Address(k)) ==>
      pd[k].page.frame == Address(k)
    modifies pd
    ensures forall k :: 0 <= k < pd.Length ==>
      pd[k] == if dirs[k / ENTRIES] then SplitSlot(old(pd[k]), k, splits) else old(pd[k])
  {
    for level2 := 0 to |dirs|
      invariant forall k :: 0 <= k < level2 * ENTRIES ==>
        pd[k] == if dirs[k / ENTRIES] then SplitSlot(old(pd[k]), k, splits) else old(pd[k])
      invariant forall k :: level2 * ENTRIES <= k < pd.Length ==> pd[k] == old(pd[k])
    {
      if dirs[level2] {
        for level3 := 0 to ENTRIES
          invariant forall k :: 0 <= k < level2 * ENTRIES + level3 ==>
            pd[k] == if dirs[k / ENTRIES] then SplitSlot(old(pd[k]), k, splits) else old(pd[k])
          invariant forall k :: level2 * ENTRIES + level3 <= k < pd.Length ==> pd[k] == old(pd[k])
        {
          var i := level2 * ENTRIES + level3;
          assert i / ENTRIES == level2;
          if pd[i].Big? {
            var split := IsAddressSplit(splits, Address(i));
            if split {
              assert pd[i].page.frame == Address(i);
              var pt := SplitPage(i);
              pd[i] := Table(true, true, false, pt);
              assert pt == SplitSlot(old(pd[i]), i, splits).pt;
            }
          }
        }
      }
    }
  }

  /** Lines 523-567: the second pass. */
  method PatchPages(dirs: seq<bool>, pd: array<Slot>, r: seq<Protection>, xd: bool)
    requires pd.Length == |dirs| * ENTRIES
    modifies pd
    ensures forall k :: 0 <= k < pd.Length ==>
      pd[k] == if dirs[k / ENTRIES] then PatchSlot(old(pd[k]), k, r, xd) else old(pd[k])
  {
    for level2 := 0 to |dirs|
      invariant forall k :: 0 <= k < level2 * ENTRIES ==>
        pd[k] == if dirs[k / ENTRIES] then PatchSlot(old(pd[k]), k, r, xd) else old(pd[k])
      invariant forall k :: level2 * ENTRIES <= k < pd.Length ==> pd[k] == old(pd[k])
    {
      if dirs[level2] {
        for level3 := 0 to ENTRIES
          invariant forall k :: 0 <= k < level2 * ENTRIES + level3 ==>
            pd[k] == if dirs[k / ENTRIES] then PatchSlot(old(pd[k]), k, r, xd) else old(pd[k])
          invariant forall k :: level2 * ENTRIES + level3 <= k < pd.Length ==> pd[k] == old(pd[k])
        {
          var i := level2 * ENTRIES + level3;
          assert i / ENTRIES == level2;
          var slot := PatchOne(pd[i], i, r, xd);
          pd[i] := slot;
        }
      }
    }
  }

  /** Lines 535-564 */
  method PatchOne(s: Slot, k: nat, r: seq<Protection>, xd: bool) returns (s': Slot)
    ensures s' == PatchSlot(s, k, r, xd)
  {
    s' := s;
    match s
    case Big(e) =>
      var valid, nx := IsAddressValid(r, Address(k));
      if !valid { s' := Big(s'.page.(present := false, writable := false)); }
      if nx && xd { s' := Big(s'.page.(nx := true)); }
    case Table(present, writable, nx, pt) =>
      var pt' := PatchTable(k, pt, r, xd);
      assert pt' == PatchSlot(s, k, r, xd).pt;
      s' := Table(present, writable, nx, pt');
    case Zero =>
  }

  // ---- the flat table ----

  /** What the processor sees of one 4KB page; `other` are the other bits of its last entry. */
  datatype Page = Page(frame: nat, present: bool, writable: bool, nx: bool, other: nat)

  function View(s: Slot, j: nat): Page
    requires WellFormed(s) && j < ENTRIES
  {
    match s
    case Big(e) => Page(e.frame + j * SIZE_4KB, e.present, e.writable, e.nx, e.other)
    case Table(present, writable, nx, pt) =>
      Page(pt[j].frame, present && pt[j].present, writable && pt[j].writable, nx || pt[j].nx, pt[j].other)
    case Zero => Page(0, false, false, false, 0)
  }

  /** One rule for each 4KB page a: it stays where it was; it is present (writable) if it was and a is in a
      valid range; it is not executable if it was not or its first range says so; the other bits stay.  A 2MB page
      that has been split counts as present, writable and executable before, with no other bits. */
  ghost predicate FlatRule(before: Page, after: Page, r: seq<Protection>, xd: bool, a: nat, split: bool) {
    && after.frame == before.frame
    && after.present == (Valid(r, a) && (before.present || split))
    && after.writable == (Valid(r, a) && (before.writable || split))
    && after.nx == ((before.nx && !split) || (Nx(r, a) && xd))
    && after.other == (if split then 0 else before.other)
  }

  /** The two passes over mixed 2MB and 4KB pages amount to the flat rule, for every 4KB page. */
  lemma TwoPassesAreFlat(s: Slot, k: nat, j: nat, r: seq<Protection>, xd: bool)
    requires WellFormed(s) && !s.Zero? && j < ENTRIES
    requires s.Big? && Split(Splits(r), Address(k)) ==> s.page.frame == Address(k)
    ensures WellFormed(PatchSlot(SplitSlot(s, k, Splits(r)), k, r, xd))
    ensures FlatRule(View(s, j), View(PatchSlot(SplitSlot(s, k, Splits(r)), k, r, xd), j), r, xd, PageAddress(k, j),
                     s.Big? && Split(Splits(r), Address(k)))
  {
    if s.Big? && !Split(Splits(r), Address(k)) {
      assert Address(k) % SIZE_2MB == 0;
      UnsplitUniform(r, Address(k), PageAddress(k, j));
    }
  }

  /** InitPaging.  dirs tells which page directories exist; the requirement on the frames is the assertion of
      line 503. */
  method InitPaging(dirs: seq<bool>, pd: array<Slot>, r: seq<Protection>, splits: seq<Range>, xd: bool)
    requires pd.Length == |dirs| * ENTRIES && splits == Splits(r)
    requires forall k :: 0 <= k < pd.Length ==> WellFormed(pd[k])
    requires forall k :: 0 <= k < pd.Length && dirs[k / ENTRIES] && pd[k].Big? && Split(Splits(r), Address(k)) ==>
      pd[k].page.frame == Address(k)
    modifies pd
    ensures forall k :: 0 <= k < pd.Length ==> WellFormed(pd[k])
    ensures forall k, j :: 0 <= k < pd.Length && 0 <= j < ENTRIES ==>
      if dirs[k / ENTRIES] && !old(pd[k]).Zero?
      then FlatRule(View(old(pd[k]), j), View(pd[k], j), r, xd, PageAddress(k, j),
                    old(pd[k]).Big? && Split(Splits(r), Address(k)))
      else pd[k] == old(pd[k])
  {
    SplitPages(dirs, pd, splits);
    PatchPages(dirs, pd, r, xd);
    forall k, j | 0 <= k < pd.Length && 0 <= j < ENTRIES && dirs[k / ENTRIES] && !old(pd[k]).Zero?
      ensures WellFormed(pd[k])
      ensures FlatRule(View(old(pd[k]), j), View(pd[k], j), r, xd, PageAddress(k, j),
                       old(pd[k]).Big? && Split(Splits(r), Address(k)))
    {
      TwoPassesAreFlat(old(pd[k]), k, j, r, xd);
    }
  }

  // ---- end to end, byte by byte ----

  /** The page that byte x lies in. */
  function Lookup(pd: seq<Slot>, x: nat): Page
    requires x < |pd| * SIZE_2MB && forall k :: 0 <= k < |pd| ==> WellFormed(pd[k])
  {
    View(pd[x / SIZE_2MB], x % SIZE_2MB / SIZE_4KB)
  }

  /** The table before: every 2MB page maps to itself and is present, writable and executable. */
  ghost predicate Identity(pd: seq<Slot>) {
    forall k :: 0 <= k < |pd| ==>
      && WellFormed(pd[k])
      && (pd[k].Big? ==> pd[k].page == pd[k].page.(frame := Address(k), present := true, writable := true, nx := false))
  }

  ghost predicate Aligned4K(r: seq<Protection>) {
    forall i :: 0 <= i < |r| ==> r[i].range.base % SIZE_4KB == 0 && r[i].range.top % SIZE_4KB == 0
  }

  lemma PageOf(x: nat)
    ensures var k, j := x / SIZE_2MB, x % SIZE_2MB / SIZE_4KB;
      j < ENTRIES && PageAddress(k, j) % SIZE_4KB == 0 && PageAddress(k, j) <= x < PageAddress(k, j) + SIZE_4KB
  {
  }

  /** What the profile promises of byte x: it is present exactly if it was and IsAddressValid accepts it, and a
      present page maps where it did and is executable unless it was not or its first range forbids it. */
  ghost predicate ByteRule(before: Page, after: Page, r: seq<Protection>, xd: bool, x: nat) {
    && after.present == (before.present && Valid(r, x))
    && (before.present ==> after.frame == before.frame && after.nx == (before.nx || (Nx(r, x) && xd)))
  }

  lemma NothingValid(before: Page, after: Page, xd: bool, x: nat)
    requires ByteRule(before, after, [], xd, x)
    ensures !after.present
  {
  }

  /** The flat rule of a 4KB page is the byte rule of its bytes. */
  lemma ByteFollows(before: Slot, after: Slot, k: nat, j: nat, r: seq<Protection>, xd: bool, x: nat)
    requires WellFormed(before) && WellFormed(after) && j < ENTRIES && Aligned4K(r)
    requires PageAddress(k, j) % SIZE_4KB == 0 && PageAddress(k, j) <= x < PageAddress(k, j) + SIZE_4KB
    requires before.Big? ==>
      before.page == before.page.(frame := Address(k), present := true, writable := true, nx := false)
    requires if before.Zero? then after == before
             else FlatRule(View(before, j), View(after, j), r, xd, PageAddress(k, j),
                           before.Big? && Split(Splits(r), Address(k)))
    ensures ByteRule(View(before, j), View(after, j), r, xd, x)
  {
    AlignedUniform(r, PageAddress(k, j), x);
  }

  /** InitProtectedMemRange and InitPaging together, on a table whose page directories all exist, when the split
      ranges fit into their slots.  Without an MMIO descriptor no range is protected, and nothing at all stays
      present. */
  method InitProfileTable(template: seq<Protection>, d: seq<Descriptor>, pd: array<Slot>, pdpEntries: nat, xd: bool)
    returns (r: seq<Protection>, fits: bool)
    requires |template| == 2 && pd.Length == pdpEntries * ENTRIES && Identity(pd[..])
    requires Aligned4K(template + MmioRanges(d))
    modifies pd
    ensures r == if MmioRanges(d) == [] then [] else template + MmioRanges(d)
    ensures fits <==> Count(r, NeedsTwo) <= Count(r, NeedsNone)
    ensures forall k :: 0 <= k < pd.Length ==> WellFormed(pd[k])
    ensures fits ==>
      forall x: nat :: x < pd.Length * SIZE_2MB ==> ByteRule(Lookup(old(pd[..]), x), Lookup(pd[..], x), r, xd, x)
    ensures MmioRanges(d) == [] ==> fits && forall x: nat :: x < pd.Length * SIZE_2MB ==> !Lookup(pd[..], x).present
  {
    var split, splitCount;
    r, split, splitCount, fits := InitProtectedMemRange(template, d);
    if !fits { return; }
    InitPaging(seq(pdpEntries, _ => true), pd, r, split[..splitCount], xd);
    hide FlatRule, ByteRule, View, MmioRanges, Splits, Count;
    forall x: nat | x < pd.Length * SIZE_2MB ensures ByteRule(Lookup(old(pd[..]), x), Lookup(pd[..], x), r, xd, x) {
      PageOf(x);
      ByteFollows(old(pd[x / SIZE_2MB]), pd[x / SIZE_2MB], x / SIZE_2MB, x % SIZE_2MB / SIZE_4KB, r, xd, x);
    }
    if MmioRanges(d) == [] {
      forall x: nat | x < pd.Length * SIZE_2MB ensures !Lookup(pd[..], x).present {
        NothingValid(Lookup(old(pd[..]), x), Lookup(pd[..], x), xd, x);
      }
    }
  }
}
