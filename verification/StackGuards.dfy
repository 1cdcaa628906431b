/** The SMM page table for the first 4GB, with guard pages under the SMM stacks:
    IA32FamilyCpuPkg/PiSmmCpuDxeSmm/MpService.c, lines 521-682. */
module StackGuards {

  const PAGE: nat := 0x1000
  const SIZE_2MB: nat := 0x20_0000
  const SIZE_4GB: nat := 0x1_0000_0000
  const WINDOWS: nat := 2048
  const ENTRIES: nat := 512

  /** A page table entry.  Bit 7 means "2MB page" in a page directory and is the PAT bit in a page table; a 2MB
      page has its PAT bit elsewhere. */
  datatype Entry = Entry(address: nat, present: bool, writable: bool, bit7: bool, pat2M: bool, cd: bool, wt: bool)

  function Flags(address: nat, present: bool, writable: bool, bit7: bool): Entry {
    Entry(address, present, writable, bit7, false, false, false)
  }

  /** The SMM stacks: n stacks of `size` bytes each, one after the other from `base`. */
  datatype Stacks = Stacks(base: nat, size: nat, n: nat)
  {
    ghost predicate Valid() {
      base % PAGE == 0 && size % PAGE == 0 && size >= 2 * PAGE && n > 0 && End() < SIZE_4GB
    }

    /** The guard page of stack i: its second page. */
    function Guard(i: nat): nat {
      if i == 0 then base + PAGE else Guard(i - 1) + size
    }

    /** mSmmStackArrayEnd: the last byte. */
    function End(): int { Guard(n) - PAGE - 1 }

    ghost predicate IsGuard(a: nat) { exists i :: 0 <= i < n && a == Guard(i) }
  }

  lemma {:induction false} GuardsAscend(s: Stacks, i: nat, j: nat)
    requires i <= j
    ensures s.Guard(i) <= s.Guard(j)
    ensures i < j ==> s.Guard(i) + s.size <= s.Guard(j)
  {
    if i < j { GuardsAscend(s, i, j - 1); }
  }

  lemma {:induction false} GuardAligned(s: Stacks, i: nat)
    requires s.base % PAGE == 0 && s.size % PAGE == 0
    ensures s.Guard(i) % PAGE == 0 && s.Guard(i) >= PAGE
  {
    if i > 0 { GuardAligned(s, i - 1); }
  }

  /** The same in closed form, as the source computes them. */
  lemma {:induction false} GuardIs(s: Stacks, i: nat)
    ensures s.Guard(i) == s.base + PAGE + i * s.size
  {
    if i > 0 { GuardIs(s, i - 1); }
  }

  lemma EndIs(s: Stacks)
    ensures s.End() == s.base + s.n * s.size - 1
  {
    GuardIs(s, s.n);
  }

  function Down2M(a: nat): nat { a - a % SIZE_2MB }

  // ---- one window of 2MB ----

  /** `guard` is the next guard page to be marked, the hit-th, at or above a; when all have been, it is 0. */
  ghost predicate Next(s: Stacks, guard: nat, hit: nat, a: nat) {
    && hit <= s.n
    && (forall i :: 0 <= i < hit ==> s.Guard(i) < a)
    && if hit < s.n then guard == s.Guard(hit) >= a else guard == 0
  }

  lemma Multiples(a: nat, b: nat)
    requires a % PAGE == 0 && b % PAGE == 0 && a < b
    ensures a + PAGE <= b
  {
  }

  lemma HitsGuard(s: Stacks, guard: nat, hit: nat, a: nat)
    requires s.Valid() && Next(s, guard, hit, a)
    ensures a == guard <==> s.IsGuard(a)
  {
    if hit < s.n {
      forall i | hit < i < s.n ensures s.Guard(i) > s.Guard(hit) { GuardsAscend(s, hit, i); }
    } else {
      GuardAligned(s, 0);
      assert s.Guard(0) < a;
    }
  }

  lemma MissesGuard(s: Stacks, guard: nat, hit: nat, a: nat)
    requires s.Valid() && Next(s, guard, hit, a) && a % PAGE == 0 && a != guard
    ensures Next(s, guard, hit, a + PAGE)
  {
    if hit < s.n {
      GuardAligned(s, hit);
      Multiples(a, guard);
    }
  }

  lemma PassesGuard(s: Stacks, guard: nat, hit: nat, a: nat)
    requires s.Valid() && Next(s, guard, hit, a) && a == guard
    ensures Next(s, if guard + s.size > s.End() then 0 else guard + s.size, hit + 1, a + PAGE)
  {
    GuardAligned(s, 0);
    assert s.Guard(hit + 1) == s.Guard(hit) + s.size;
    if hit + 1 < s.n { GuardsAscend(s, hit + 1, s.n); }
  }

  /** The walk looks for one guard page at a time, and finds each of them once. */
  lemma NextStep(s: Stacks, guard: nat, hit: nat, a: nat)
    requires s.Valid() && Next(s, guard, hit, a) && a % PAGE == 0
    ensures a == guard <==> s.IsGuard(a)
    ensures a != guard ==> Next(s, guard, hit, a + PAGE)
    ensures a == guard ==> Next(s, if guard + s.size > s.End() then 0 else guard + s.size, hit + 1, a + PAGE)
  {
    HitsGuard(s, guard, hit, a);
    if a != guard {
      MissesGuard(s, guard, hit, a);
    } else {
      PassesGuard(s, guard, hit, a);
    }
  }

  /** Lines 592-608: the page table of the window at pageIndex. */
  method FillWindow(s: Stacks, pageIndex: nat, guard0: nat, ghost hit0: nat)
    returns (pt: seq<Entry>, guard: nat, ghost hit: nat)
    requires s.Valid() && Next(s, guard0, hit0, pageIndex) && pageIndex % PAGE == 0
    ensures |pt| == ENTRIES && Next(s, guard, hit, pageIndex + SIZE_2MB)
    ensures forall j :: 0 <= j < ENTRIES ==>
      pt[j] == var a := pageIndex + j * PAGE; Flags(a, !s.IsGuard(a), !s.IsGuard(a), false)
  {
    pt, guard, hit := [], guard0, hit0;
    var pageAddress := pageIndex;
    for index := 0 to ENTRIES
      invariant |pt| == index && pageAddress == pageIndex + index * PAGE && pageAddress % PAGE == 0
      invariant Next(s, guard, hit, pageAddress)
      invariant forall j :: 0 <= j < index ==>
        pt[j] == var a := pageIndex + j * PAGE; Flags(a, !s.IsGuard(a), !s.IsGuard(a), false)
    {
      NextStep(s, guard, hit, pageAddress);
      if pageAddress == guard {
        pt := pt + [Flags(pageAddress, false, false, false)];
        guard := guard + s.size;
        if guard > s.End() { guard := 0; }
        hit := hit + 1;
      } else {
        pt := pt + [Flags(pageAddress, true, true, false)];
      }
      pageAddress := pageAddress + PAGE;
    }
  }

  // ---- the page tables ----

  /** What the processor sees of one 4KB page. */
  datatype Page = Page(address: nat, present: bool, writable: bool, pat: bool, cd: bool, wt: bool)

  function Plain(address: nat, open: bool): Page { Page(address, open, open, false, false, false) }

  /** The page table at address root: four page directory pointers, four page directories side by side, and page
      tables by address. */
  class PageTables {
    const root: nat
    var pdpt: seq<Entry>
    var pd: seq<Entry>
    var pts: map<nat, seq<Entry>>

    ghost predicate Valid()
      reads this
    {
      && |pdpt| == 4 && |pd| == WINDOWS
      && (forall i :: 0 <= i < 4 ==> pdpt[i].present && pdpt[i].address == root + PAGE * (i + 1))
      && (forall a :: a in pts ==> |pts[a]| == ENTRIES)
      && (forall w :: 0 <= w < WINDOWS ==> pd[w].present && (!pd[w].bit7 ==> pd[w].address in pts))
      && (forall w, v :: 0 <= w < v < WINDOWS && !pd[w].bit7 && !pd[v].bit7 ==> pd[w].address != pd[v].address)
    }

    /** Page j of window w. */
    ghost function View(w: nat, j: nat): Page
      requires Valid() && w < WINDOWS && j < ENTRIES
      reads this
    {
      var d := pd[w];
      if d.bit7 then Page(d.address + j * PAGE, d.present, d.writable, d.pat2M, d.cd, d.wt)
      else
        var e := pts[d.address][j];
        Page(e.address, d.present && e.present, d.writable && e.writable, e.bit7, e.cd, e.wt)
    }

    /** Lines 565-580 */
    method FillDirectories()
      modifies this
      ensures Valid() && pts == map[] && forall w :: 0 <= w < WINDOWS ==> pd[w] == Flags(w * SIZE_2MB, true, true, true)
    {
      pdpt, pd, pts := [], [], map[];
      for index := 0 to 4
        invariant |pdpt| == index && pd == [] && pts == map[]
        invariant forall i :: 0 <= i < index ==> pdpt[i] == Flags(root + PAGE * (i + 1), true, false, false)
      {
        pdpt := pdpt + [Flags(root + PAGE * (index + 1), true, false, false)];
      }
      for index := 0 to WINDOWS
        invariant |pd| == index && |pdpt| == 4 && pts == map[]
        invariant forall i :: 0 <= i < 4 ==> pdpt[i] == Flags(root + PAGE * (i + 1), true, false, false)
        invariant forall w :: 0 <= w < index ==> pd[w] == Flags(w * SIZE_2MB, true, true, true)
      {
        pd := pd + [Flags(index * SIZE_2MB, true, true, true)];
      }
    }

    /** The index in pd that lines 587-588 and 644-653 reach for an address below 4GB. */
    method DirectoryIndex(address: nat) returns (index: nat)
      requires Valid() && address < SIZE_4GB
      ensures index == address / SIZE_2MB < WINDOWS
    {
      var directory := pdpt[address / 0x4000_0000];
      index := ((directory.address - root) / PAGE - 1) * ENTRIES + address / SIZE_2MB % ENTRIES;
    }

    /** Windows from lo up to hi have page tables of their own, one page after the other from the fifth page on;
        the others are 2MB pages. */
    ghost predicate Filled(s: Stacks, lo: nat, hi: nat)
      requires Valid() && lo <= hi <= WINDOWS
      reads this
    {
      forall w :: 0 <= w < WINDOWS ==>
        if lo <= w < hi then
          && pd[w] == Flags(root + PAGE * (5 + w - lo), true, true, false)
          && forall j :: 0 <= j < ENTRIES ==>
            pts[pd[w].address][j] == var a := w * SIZE_2MB + j * PAGE; Flags(a, !s.IsGuard(a), !s.IsGuard(a), false)
        else pd[w] == Flags(w * SIZE_2MB, true, true, true)
    }

    /** Lines 587-609 for one window. */
    method AddWindow(s: Stacks, ghost lo: nat, ghost w: nat, pageIndex: nat, pages: nat, guard0: nat, ghost hit0: nat)
      returns (guard: nat, ghost hit: nat)
      requires Valid() && s.Valid() && lo <= w < WINDOWS && Filled(s, lo, w) && pageIndex == w * SIZE_2MB
      requires pages == root + PAGE * (5 + w - lo) && Next(s, guard0, hit0, pageIndex)
      modifies this
      ensures Valid() && Filled(s, lo, w + 1) && Next(s, guard, hit, pageIndex + SIZE_2MB)
      ensures pts.Keys == old(pts.Keys) + {pages}
    {
      hide Next, Stacks.IsGuard, Stacks.Valid;
      var index := DirectoryIndex(pageIndex);
      var pt;
      pt, guard, hit := FillWindow(s, pageIndex, guard0, hit0);
      pd := pd[index := Flags(pages, true, true, false)];
      pts := pts[pages := pt];
    }

    /** Lines 583-610: the walk over the windows from low to high. */
    method AddWindows(s: Stacks, low: nat, high: nat, ghost lo: nat, ghost hi: nat) returns (end: nat)
      requires low == lo * SIZE_2MB && high == hi * SIZE_2MB && lo <= hi < WINDOWS && Next(s, s.base + PAGE, 0, low)
      requires Valid() && s.Valid() && Filled(s, lo, lo) && pts == map[]
      modifies this
      ensures Valid() && Filled(s, lo, hi + 1)
      ensures forall a :: a in pts ==> root <= a < end
      ensures end == root + PAGE * (5 + hi - lo + 1)
    {
      end := root + 5 * PAGE;
      var guardPage: nat, pageIndex: nat := s.base + PAGE, low;
      ghost var hit, w := 0, lo;
      while pageIndex <= high
        invariant lo <= w <= hi + 1 && pageIndex == w * SIZE_2MB
        invariant end == root + PAGE * (5 + w - lo)
        invariant Valid() && Filled(s, lo, w) && Next(s, guardPage, hit, pageIndex)
        invariant forall a :: a in pts ==> root <= a < end
      {
        guardPage, hit := AddWindow(s, lo, w, pageIndex, end, guardPage, hit);
        end := end + PAGE;
        pageIndex := pageIndex + SIZE_2MB;
        w := w + 1;
      }
    }

    /** Every page below 4GB maps to itself, and is present and writable unless it is a guard page. */
    ghost predicate AllOpenBut(guarded: bool, s: Stacks)
      requires Valid()
      reads this
    {
      forall w, j :: 0 <= w < WINDOWS && 0 <= j < ENTRIES ==>
        View(w, j) == Plain(w * SIZE_2MB + j * PAGE, !(guarded && s.IsGuard(w * SIZE_2MB + j * PAGE)))
    }

    /** Gen4GPageTable.  Every page below 4GB maps to itself and is present, except the guard pages, and the walk
        over the windows uses exactly the page tables that were counted, up to the address `end`. */
    method Gen4GPageTable(guarded: bool, s: Stacks) returns (count: nat, end: nat)
      requires guarded ==> s.Valid()
      modifies this
      ensures Valid() && end == root + PAGE * count && AllOpenBut(guarded, s)
      ensures count == PageCount(guarded, s) && forall a :: a in pts ==> root <= a < end
    {
      FillDirectories();
      count, end := 5, root + 5 * PAGE;
      if !guarded {
        LargeViews(s);
      } else {
        var low := Down2M(s.base + PAGE);
        var high := Down2M(s.End() - s.size + 2 * PAGE);
        Boundaries(s, low, high);
        count := 5 + (high - low) / SIZE_2MB + 1;
        end := AddWindows(s, low, high, low / SIZE_2MB, high / SIZE_2MB);
        FilledViews(s, low / SIZE_2MB, high / SIZE_2MB);
      }
    }

    lemma LargeViews(s: Stacks)
      requires Valid() && forall w :: 0 <= w < WINDOWS ==> pd[w] == Flags(w * SIZE_2MB, true, true, true)
      ensures AllOpenBut(false, s)
    {
    }

    lemma FilledViews(s: Stacks, lo: nat, hi: nat)
      requires Valid() && lo <= hi < WINDOWS && Filled(s, lo, hi + 1)
      requires forall i :: 0 <= i < s.n ==> lo * SIZE_2MB <= s.Guard(i) < (hi + 1) * SIZE_2MB
      ensures AllOpenBut(true, s)
    {
    }

    // ---- cacheability ----

    /** Lines 663-670: a 2MB page becomes 512 small ones.  Bit 7, set for the 2MB page, stays set. */
    method SplitPage(d: Entry) returns (pt: seq<Entry>)
      requires d.bit7
      ensures |pt| == ENTRIES && forall j :: 0 <= j < ENTRIES ==>
        pt[j] == d.(address := d.address + j * PAGE, pat2M := false)
    {
      pt := [];
      for index := 0 to ENTRIES
        invariant |pt| == index && forall j :: 0 <= j < index ==>
          pt[j] == d.(address := d.address + j * PAGE, pat2M := false)
      {
        var e := d;
        if e.pat2M { e := e.(pat2M := false, bit7 := true); }
        pt := pt + [e.(address := e.address + index * PAGE)];
      }
    }

    /** Lines 654-673 */
    method SplitWindow(w: nat, newPage: nat)
      requires Valid() && w < WINDOWS && newPage !in pts
      modifies this
      ensures Valid() && !pd[w].bit7
      ensures old(pts.Keys) <= pts.Keys <= old(pts.Keys) + {newPage}
      ensures forall v, j :: 0 <= v < WINDOWS && 0 <= j < ENTRIES ==>
        View(v, j) == var p := old(View(v, j));
          if v == w && old(pd[w].bit7) then p.(writable := false, pat := true) else p
    {
      if pd[w].bit7 {
        var pt := SplitPage(pd[w]);
        pts := pts[newPage := pt];
        pd := pd[w := Flags(newPage, true, false, false)];
      }
    }

    /** Lines 676-681 */
    method SetEntry(w: nat, j: nat, cache: Cacheability)
      requires Valid() && w < WINDOWS && j < ENTRIES && !pd[w].bit7
      modifies this
      ensures Valid() && pts.Keys == old(pts.Keys)
      ensures forall v, k :: 0 <= v < WINDOWS && 0 <= k < ENTRIES ==>
        View(v, k) == var p := old(View(v, k));
          if v == w && k == j then p.(pat := cache.pat, cd := cache.cd, wt := cache.wt) else p
    {
      var table := pd[w].address;
      var e := pts[table][j].(bit7 := false, cd := false, wt := false);
      e := e.(bit7 := cache.pat, cd := cache.cd, wt := cache.wt);
      pts := pts[table := pts[table][j := e]];
    }

    /** SetCacheability for a present page, with a page newPage from the allocator in case a 2MB page has to be
        split.  Frames and presence never change.  The page gets the cacheability asked for; but splitting makes
        the whole 2MB read-only (the new directory entry has no write bit) and sets the PAT bit of the others. */
    method SetCacheability(address: nat, cache: Cacheability, newPage: nat)
      requires Valid() && address % PAGE == 0 && address < SIZE_4GB && newPage !in pts
      requires View(address / SIZE_2MB, address % SIZE_2MB / PAGE).present
      modifies this
      ensures Valid() && pts.Keys <= old(pts.Keys) + {newPage}
      ensures forall w, j :: 0 <= w < WINDOWS && 0 <= j < ENTRIES ==>
        IsRecached(old(View(w, j)), View(w, j), address, cache, w, j, old(pd[w].bit7))
    {
      var w := DirectoryIndex(address);
      SplitWindow(w, newPage);
      SetEntry(w, address % SIZE_2MB / PAGE, cache);
    }

    /** The pages the allocator hands out are new: neither in the table's own allocation nor handed out before. */
    ghost predicate AreFresh(calls: seq<(nat, Cacheability, nat)>, count: int) {
      && (forall k :: 0 <= k < |calls| ==> calls[k].2 < root || root + PAGE * count <= calls[k].2)
      && (forall k, l :: 0 <= k < l < |calls| ==> calls[k].2 != calls[l].2)
    }

    /** Every page below 4GB maps to itself, and is present unless it is a guard page. */
    ghost predicate AllMappedBut(guarded: bool, s: Stacks)
      requires Valid()
      reads this
    {
      forall w, j :: 0 <= w < WINDOWS && 0 <= j < ENTRIES ==>
        var a := w * SIZE_2MB + j * PAGE;
        View(w, j).address == a && View(w, j).present == !(guarded && s.IsGuard(a))
    }

    ghost predicate HasCache(address: nat, cache: Cacheability)
      requires Valid() && address < SIZE_4GB
      reads this
    {
      var p := View(address / SIZE_2MB, address % SIZE_2MB / PAGE);
      p.pat == cache.pat && p.cd == cache.cd && p.wt == cache.wt
    }

    method SetCacheabilityKeeps(guarded: bool, s: Stacks, address: nat, cache: Cacheability, newPage: nat)
      requires Valid() && AllMappedBut(guarded, s) && newPage !in pts
      requires address % PAGE == 0 && address < SIZE_4GB && !(guarded && s.IsGuard(address))
      modifies this
      ensures Valid() && AllMappedBut(guarded, s) && pts.Keys <= old(pts.Keys) + {newPage}
      ensures HasCache(address, cache)
    {
      assert address == address / SIZE_2MB * SIZE_2MB + address % SIZE_2MB / PAGE * PAGE;
      SetCacheability(address, cache, newPage);
    }

    /** Any number of SetCacheability calls after Gen4GPageTable: every page below 4GB still maps to itself and is
        present, except exactly the guard pages; the page of the last call has the cacheability it asked for. */
    method GuardedTable(guarded: bool, s: Stacks, calls: seq<(nat, Cacheability, nat)>)
      requires guarded ==> s.Valid()
      requires forall c :: c in calls ==> c.0 % PAGE == 0 && c.0 < SIZE_4GB && !(guarded && s.IsGuard(c.0))
      requires AreFresh(calls, PageCount(guarded, s))
      modifies this
      ensures Valid() && AllMappedBut(guarded, s)
      ensures |calls| > 0 ==> HasCache(calls[|calls| - 1].0, calls[|calls| - 1].1)
    {
      hide Stacks.IsGuard, View;
      var count, end := Gen4GPageTable(guarded, s);
      hide Valid, AllMappedBut, HasCache, PageCount;
      for i := 0 to |calls|
        invariant Valid() && AllMappedBut(guarded, s)
        invariant i > 0 ==> HasCache(calls[i - 1].0, calls[i - 1].1)
        invariant forall a :: a in pts ==> root <= a < end || exists k :: 0 <= k < i && calls[k].2 == a
      {
        SetCacheabilityKeeps(guarded, s, calls[i].0, calls[i].1, calls[i].2);
      }
    }
  }

  /** The pages of the table: one of pointers, four directories, and one page table for each window from the low to
      the high boundary. */
  ghost function PageCount(guarded: bool, s: Stacks): int
    requires guarded ==> s.Valid()
  {
    if !guarded then 5
    else 5 + (Down2M(s.End() - s.size + 2 * PAGE) - Down2M(s.base + PAGE)) / SIZE_2MB + 1
  }

  /** The three bits of a page table entry that select the memory type. */
  datatype Cacheability = Cacheability(pat: bool, cd: bool, wt: bool)

  /** What setting the cacheability of the page at `address` does to page j of window w; `split` tells whether the
      window was a 2MB page. */
  predicate IsRecached(before: Page, after: Page, address: nat, cache: Cacheability, w: nat, j: nat, split: bool) {
    var here := w == address / SIZE_2MB;
    && after.address == before.address && after.present == before.present
    && after.writable == (before.writable && !(here && split))
    && if here && j == address % SIZE_2MB / PAGE
       then after.pat == cache.pat && after.cd == cache.cd && after.wt == cache.wt
       else after.pat == (before.pat || (here && split)) && after.cd == before.cd && after.wt == before.wt
  }

  /** All guard pages lie in the windows from low to high. */
  lemma Boundaries(s: Stacks, low: nat, high: nat)
    requires s.Valid() && low == Down2M(s.base + PAGE) && high == Down2M(s.End() - s.size + 2 * PAGE)
    ensures low % SIZE_2MB == 0 && high % SIZE_2MB == 0 && low <= high < SIZE_4GB
    ensures Next(s, s.base + PAGE, 0, low)
    ensures forall i :: 0 <= i < s.n ==> low <= s.Guard(i) < high + SIZE_2MB
  {
    assert s.Guard(s.n) == s.Guard(s.n - 1) + s.size;
    forall i | 0 <= i < s.n ensures s.Guard(0) <= s.Guard(i) <= s.Guard(s.n - 1) {
      GuardsAscend(s, 0, i);
      GuardsAscend(s, i, s.n - 1);
    }
  }
}
