/** The page fault and single-step handlers of the SMM profile on one processor
    (IA32FamilyCpuPkg/PiSmmCpuDxeSmm/SmmProfile.c, lines 205-235 and 1003-1095; x64): a fault opens the page, the
    debug exception after the faulting instruction closes it again. */
module ProfileFaults {

  const P: bv64 := 0x1
  const RW: bv64 := 0x2
  const PS: bv64 := 0x80
  const NX: bv64 := 0x8000_0000_0000_0000
  const PHYSICAL_ADDRESS_MASK: bv64 := 0xF_FFFF_FFFF_F000

  /** Bits of the page fault error code: a write, an instruction fetch. */
  const EC_WR: bv64 := 0x2
  const EC_ID: bv64 := 0x10

  const MAX_PF_ENTRY_COUNT: nat := 10

  /** Where an entry is: the page that holds the table, and the index in it.  Tables are 4KB aligned, so this
      stands for the entry's address. */
  datatype Place = Place(table: bv64, index: bv64)

  /** The page table entries. */
  type Memory = Place -> bv64

  function Store(m: Memory, p: Place, v: bv64): Memory {
    (q: Place) => if q == p then v else m(q)
  }

  // ---- walking the page table ----

  /** The entry of a table for the nine bits at the bottom of a. */
  function EntryAt(table: bv64, a: bv64): Place { Place(table & PHYSICAL_ADDRESS_MASK, a & 0x1FF) }

  function Pml4Entry(cr3: bv64, a: bv64): Place { EntryAt(cr3, a >> 39) }

  function PdptEntry(m: Memory, cr3: bv64, a: bv64): Place { EntryAt(m(Pml4Entry(cr3, a)), a >> 30) }

  function PdEntry(m: Memory, cr3: bv64, a: bv64): Place { EntryAt(m(PdptEntry(m, cr3, a)), a >> 21) }

  predicate IsLarge(m: Memory, cr3: bv64, a: bv64) { m(PdEntry(m, cr3, a)) & PS != 0 }

  /** The entry that maps the page of a. */
  function Leaf(m: Memory, cr3: bv64, a: bv64): Place {
    if IsLarge(m, cr3, a) then PdEntry(m, cr3, a)
    else EntryAt(m(PdEntry(m, cr3, a)), a >> 12)
  }

  /** Each level is indexed by nine bits of a, from bit 39, 30, 21 and 12 on, in the table at bits 12 to 51 of the entry
      before. */
  lemma WalkBits(m: Memory, cr3: bv64, a: bv64)
    ensures Pml4Entry(cr3, a) == Place(((cr3 << 12) >> 24) << 12, (a << 16) >> 55)
    ensures PdptEntry(m, cr3, a) == Place(((m(Pml4Entry(cr3, a)) << 12) >> 24) << 12, (a << 25) >> 55)
    ensures PdEntry(m, cr3, a) == Place(((m(PdptEntry(m, cr3, a)) << 12) >> 24) << 12, (a << 34) >> 55)
    ensures IsLarge(m, cr3, a) <==> (m(PdEntry(m, cr3, a)) >> 7) & 1 == 1
    ensures Leaf(m, cr3, a) == if IsLarge(m, cr3, a) then PdEntry(m, cr3, a)
                               else Place(((m(PdEntry(m, cr3, a)) << 12) >> 24) << 12, (a << 43) >> 55)
  {
    EntryBits(cr3, a >> 39);
    EntryBits(m(Pml4Entry(cr3, a)), a >> 30);
    EntryBits(m(PdptEntry(m, cr3, a)), a >> 21);
    EntryBits(m(PdEntry(m, cr3, a)), a >> 12);
  }

  lemma EntryBits(table: bv64, a: bv64)
    ensures EntryAt(table, a) == Place(((table << 12) >> 24) << 12, (a << 55) >> 55)
  {
  }

  /** The assertions of lines 1019, 1027 and 1065. */
  predicate Walkable(m: Memory, cr3: bv64, a: bv64) {
    m(Pml4Entry(cr3, a)) != 0 && m(PdptEntry(m, cr3, a)) != 0 && m(PdEntry(m, cr3, a)) != 0
  }

  // ---- faults ----

  datatype Fault = Fault(address: bv64, errorCode: bv64)

  /** The processor faults on an entry that is not present, not writable or not executable, as the access needs. */
  predicate Forbids(e: bv64, errorCode: bv64) {
    e & P == 0 || (errorCode & EC_WR != 0 && e & RW == 0) || (errorCode & EC_ID != 0 && e & NX != 0)
  }

  /** In bits: P and W of the entry and of the error code, I/D of the error code, XD of the entry. */
  lemma ForbidsBits(e: bv64, errorCode: bv64)
    ensures Forbids(e, errorCode) <==>
      || e & 1 == 0
      || ((errorCode >> 1) & 1 == 1 && (e >> 1) & 1 == 0)
      || ((errorCode >> 4) & 1 == 1 && e >> 63 == 1)
  {
  }

  predicate IsOpen(e: bv64) { e & P != 0 && e & RW != 0 && e & NX == 0 }

  /** The new entry, lines 1055-1060 and 1089-1093; fetch is the bit EC_ID. */
  function OpenedLarge(a: bv64, fetch: bool): bv64 {
    var e := (a & !0x1F_FFFF) | PS | RW | P;
    if fetch then e & !NX else e
  }

  function OpenedSmall(a: bv64, fetch: bool): bv64 {
    var e := (a & !0xFFF) | RW | P;
    if fetch then e & !NX else e
  }

  function Opened(large: bool, f: Fault): bv64 {
    if large then OpenedLarge(f.address, f.errorCode & EC_ID != 0) else OpenedSmall(f.address, f.errorCode & EC_ID != 0)
  }

  /** The whole of the new entry for address a: in its low bits P and RW, and PS for a large page, and above them the
      page of a. */
  predicate IsNewEntry(e: bv64, a: bv64, large: bool) {
    if large then e & 0x1F_FFFF == 0x83 && e & 0xFFFF_FFFF_FFE0_0000 == a & 0xFFFF_FFFF_FFE0_0000
    else e & 0xFFF == 0x3 && e & 0xFFFF_FFFF_FFFF_F000 == a & 0xFFFF_FFFF_FFFF_F000
  }

  lemma SmallIsNew(a: bv64, fetch: bool)
    requires a <= 0xFFFF_FFFF
    ensures IsNewEntry(OpenedSmall(a, fetch), a, false)
  {
  }

  lemma LargeIsNew(a: bv64, fetch: bool)
    requires a <= 0xFFFF_FFFF
    ensures IsNewEntry(OpenedLarge(a, fetch), a, true)
  {
  }

  lemma OpenedIsNew(large: bool, f: Fault)
    requires f.address <= 0xFFFF_FFFF
    ensures IsNewEntry(Opened(large, f), f.address, large)
  {
    hide IsNewEntry, OpenedLarge, OpenedSmall;
    var fetch := f.errorCode & EC_ID != 0;
    if large { LargeIsNew(f.address, fetch); } else { SmallIsNew(f.address, fetch); }
  }

  /** mLastPFEntryPointer and mLastPFEntryValue, one element. */
  datatype Saved = Saved(pointer: Place, value: bv64)

  /** The page table and what has been recorded since the last debug exception. */
  datatype Cpu = Cpu(memory: Memory, saved: seq<Saved>)

  /** What a fault does: at most MAX_PF_ENTRY_COUNT entries are recorded, but the page is always opened. */
  function Open(c: Cpu, cr3: bv64, f: Fault): Cpu {
    var p := Leaf(c.memory, cr3, f.address);
    Cpu(Store(c.memory, p, Opened(IsLarge(c.memory, cr3, f.address), f)),
        if |c.saved| < MAX_PF_ENTRY_COUNT then c.saved + [Saved(p, c.memory(p))] else c.saved)
  }

  /** Entries are restored in recording order. */
  function Restore(m: Memory, saved: seq<Saved>): Memory {
    if |saved| == 0 then m else Restore(Store(m, saved[0].pointer, saved[0].value), saved[1..])
  }

  function Trap(c: Cpu): Cpu { Cpu(Restore(c.memory, c.saved), []) }

  // ---- the handlers ----

  /** The walk of lines 1018-1071 */
  method Walk(m: Memory, cr3: bv64, a: bv64) returns (leaf: Place, large: bool)
    ensures leaf == Leaf(m, cr3, a) && large == IsLarge(m, cr3, a)
  {
    var pdpt := m(Pml4Entry(cr3, a));
    var pd := m(EntryAt(pdpt, a >> 30));
    leaf := EntryAt(pd, a >> 21);
    large := m(leaf) & PS != 0;
    if !large { leaf := EntryAt(m(leaf), a >> 12); }
  }

  class ProfileHandler {
    const cr3: bv64
    var memory: Memory
    var count: nat
    const pointer: array<Place>
    const value: array<bv64>

    ghost predicate Valid()
      reads this
    {
      (pointer as object) != value && pointer.Length == value.Length == MAX_PF_ENTRY_COUNT
        && count <= MAX_PF_ENTRY_COUNT
    }

    ghost function Contents(): Cpu
      requires Valid()
      reads this, pointer, value
    {
      Cpu(memory, seq(count, (i: nat)
        requires i < count <= pointer.Length && count <= value.Length
        reads this, pointer, value
                             => Saved(pointer[i], value[i])))
    }

    /** Lines 1045-1050 and 1079-1084 */
    method Record(p: Place)
      requires Valid()
      modifies this`count, pointer, value
      ensures Valid()
      ensures Contents().saved ==
        if |old(Contents().saved)| < MAX_PF_ENTRY_COUNT then old(Contents().saved) + [Saved(p, memory(p))]
        else old(Contents().saved)
    {
      if count < MAX_PF_ENTRY_COUNT {
        value[count] := memory(p);
        pointer[count] := p;
        count := count + 1;
      }
    }

    /** RestorePageTableBelow4G */
    method OnFault(f: Fault)
      requires Valid() && f.address <= 0xFFFF_FFFF && Walkable(memory, cr3, f.address)
      modifies this, pointer, value
      ensures Valid() && Contents() == Open(old(Contents()), cr3, f)
      ensures var p, large := Leaf(old(memory), cr3, f.address), IsLarge(old(memory), cr3, f.address);
        IsNewEntry(memory(p), f.address, large) && forall q :: q != p ==> memory(q) == old(memory)(q)
    {
      OpenedIsNew(IsLarge(memory, cr3, f.address), f);
      var leaf, large := Walk(memory, cr3, f.address);
      Record(leaf);
      memory := Store(memory, leaf, Opened(large, f));
    }

    /** DebugExceptionHandler */
    method OnTrap()
      requires Valid()
      modifies this
      ensures Valid() && Contents() == Trap(old(Contents()))
    {
      ghost var saved := Contents().saved;
      for index := 0 to count
        invariant count == old(count) && Contents().saved == saved
        invariant Restore(memory, saved[index..]) == Restore(old(memory), saved)
      {
        assert saved[index..][0] == Saved(pointer[index], value[index]) && saved[index..][1..] == saved[index + 1..];
        memory := Store(memory, pointer[index], value[index]);
      }
      count := 0;
    }
  }

  // ---- runs of faults and debug exceptions ----

  datatype Event = PageFault(fault: Fault) | DebugTrap

  function After(c: Cpu, cr3: bv64, e: Event): Cpu {
    match e
    case PageFault(f) => Open(c, cr3, f)
    case DebugTrap => Trap(c)
  }

  ghost predicate LegalFault(m: Memory, cr3: bv64, f: Fault) {
    f.address <= 0xFFFF_FFFF && Walkable(m, cr3, f.address) && Forbids(m(Leaf(m, cr3, f.address)), f.errorCode)
  }

  /** Every fault in the run is one that the page table of its moment causes. */
  ghost predicate Legal(c: Cpu, cr3: bv64, es: seq<Event>)
    decreases |es|
  {
    |es| > 0 ==>
      && (es[0].PageFault? ==> LegalFault(c.memory, cr3, es[0].fault))
      && Legal(After(c, cr3, es[0]), cr3, es[1..])
  }

  ghost predicate Same(m: Memory, n: Memory) { forall p :: m(p) == n(p) }

  /** After every debug exception of the run the page table is m again. */
  ghost predicate AlwaysRestored(m: Memory, c: Cpu, cr3: bv64, es: seq<Event>)
    decreases |es|
  {
    |es| > 0 ==>
      && (es[0].DebugTrap? ==> Same(After(c, cr3, es[0]).memory, m))
      && AlwaysRestored(m, After(c, cr3, es[0]), cr3, es[1..])
  }

  /** There have been n faults since the last debug exception; no debug exception of the run comes after more
      than ten. */
  predicate FewFaults(es: seq<Event>, n: nat) {
    |es| > 0 ==>
      if es[0].PageFault? then FewFaults(es[1..], n + 1) else n <= 10 && FewFaults(es[1..], 0)
  }

  // ---- the invariant ----

  ghost predicate IsSaved(saved: seq<Saved>, p: Place) { exists i :: 0 <= i < |saved| && saved[i].pointer == p }

  /** Everything recorded so far is open, no entry is recorded twice, and each recorded value is the one from m. */
  ghost predicate Recorded(m: Memory, c: Cpu) {
    && (forall i, j :: 0 <= i < j < |c.saved| ==> c.saved[i].pointer != c.saved[j].pointer)
    && (forall i :: 0 <= i < |c.saved| ==>
      c.saved[i].value == m(c.saved[i].pointer) && IsOpen(c.memory(c.saved[i].pointer)))
  }

  /** Nothing else has changed. */
  ghost predicate Kept(m: Memory, c: Cpu) {
    forall p :: !IsSaved(c.saved, p) ==> c.memory(p) == m(p)
  }

  /** Some open entry was closed before and has not been recorded. */
  ghost predicate Lost(m: Memory, c: Cpu, p: Place) {
    !IsSaved(c.saved, p) && IsOpen(c.memory(p)) && !IsOpen(m(p))
  }

  ghost predicate Inv(m: Memory, c: Cpu, n: nat) {
    && Recorded(m, c)
    && if n <= MAX_PF_ENTRY_COUNT then |c.saved| == n && Kept(m, c)
      else |c.saved| == MAX_PF_ENTRY_COUNT && exists p :: Lost(m, c, p)
  }

  // ---- the bits of an opened entry ----

  /** An opened entry allows every access and maps the page of the address to itself. */
  lemma SmallMaps(a: bv64, fetch: bool)
    requires a <= 0xFFFF_FFFF
    ensures IsOpen(OpenedSmall(a, fetch)) && OpenedSmall(a, fetch) & PHYSICAL_ADDRESS_MASK == a & !0xFFF
  {
  }

  lemma LargeMaps(a: bv64, fetch: bool)
    requires a <= 0xFFFF_FFFF
    ensures IsOpen(OpenedLarge(a, fetch)) && OpenedLarge(a, fetch) & PS != 0
    ensures OpenedLarge(a, fetch) & PHYSICAL_ADDRESS_MASK & !0x1F_FFFF == a & !0x1F_FFFF
  {
  }

  lemma OpenedIsOpen(large: bool, f: Fault)
    requires f.address <= 0xFFFF_FFFF
    ensures IsOpen(Opened(large, f))
  {
  }

  lemma OpenIsAllowed(e: bv64, errorCode: bv64)
    requires IsOpen(e)
    ensures !Forbids(e, errorCode)
  {
  }

  /** A legal fault opens an entry that is not recorded yet. */
  lemma FaultKeepsInv(m: Memory, c: Cpu, n: nat, cr3: bv64, f: Fault)
    requires Inv(m, c, n) && LegalFault(c.memory, cr3, f)
    ensures Inv(m, Open(c, cr3, f), n + 1)
  {
    var p, e, c' := Leaf(c.memory, cr3, f.address), Opened(IsLarge(c.memory, cr3, f.address), f), Open(c, cr3, f);
    if IsOpen(c.memory(p)) { OpenIsAllowed(c.memory(p), f.errorCode); }
    OpenedIsOpen(IsLarge(c.memory, cr3, f.address), f);
    StoreKeepsInv(m, c, n, p, e, c');
  }

  lemma StoreKeepsInv(m: Memory, c: Cpu, n: nat, p: Place, e: bv64, c': Cpu)
    requires Inv(m, c, n) && !IsOpen(c.memory(p)) && IsOpen(e)
    requires c' == Cpu(Store(c.memory, p, e),
                       if |c.saved| < MAX_PF_ENTRY_COUNT then c.saved + [Saved(p, c.memory(p))] else c.saved)
    ensures Inv(m, c', n + 1)
  {
    if n < MAX_PF_ENTRY_COUNT {
      assert !IsSaved(c.saved, p);
      forall q | !IsSaved(c'.saved, q) ensures c'.memory(q) == m(q) {
        assert c'.saved[n].pointer == p;
        forall i | 0 <= i < n ensures c.saved[i].pointer != q { assert c'.saved[i] == c.saved[i]; }
      }
    } else if n == MAX_PF_ENTRY_COUNT {
      assert Lost(m, c', p);
    } else {
      var q :| Lost(m, c, q);
      assert Lost(m, c', q);
    }
  }

  /** Restoring entries that are all different, in any order, gives each its recorded value. */
  lemma {:induction false} Restores(m: Memory, saved: seq<Saved>, p: Place)
    requires forall i, j :: 0 <= i < j < |saved| ==> saved[i].pointer != saved[j].pointer
    ensures !IsSaved(saved, p) ==> Restore(m, saved)(p) == m(p)
    ensures forall i :: 0 <= i < |saved| && saved[i].pointer == p ==> Restore(m, saved)(p) == saved[i].value
  {
    if |saved| > 0 {
      var m' := Store(m, saved[0].pointer, saved[0].value);
      Restores(m', saved[1..], p);
      if IsSaved(saved[1..], p) {
        var i :| 0 <= i < |saved[1..]| && saved[1..][i].pointer == p;
        assert saved[i + 1].pointer == p;
      } else {
        forall i | 0 < i < |saved| ensures saved[i].pointer != p { assert saved[i] == saved[1..][i - 1]; }
      }
    }
  }

  lemma TrapRestoresIffFew(m: Memory, c: Cpu, n: nat)
    requires Inv(m, c, n)
    ensures Same(Trap(c).memory, m) <==> n <= MAX_PF_ENTRY_COUNT
    ensures n <= MAX_PF_ENTRY_COUNT ==> Inv(m, Trap(c), 0)
  {
    forall p ensures !IsSaved(c.saved, p) ==> Trap(c).memory(p) == c.memory(p)
      ensures IsSaved(c.saved, p) ==> Trap(c).memory(p) == m(p)
    {
      Restores(c.memory, c.saved, p);
    }
    if n > MAX_PF_ENTRY_COUNT {
      var p :| Lost(m, c, p);
      assert Trap(c).memory(p) != m(p);
    }
  }

  lemma {:induction false} RestoredIff(m: Memory, c: Cpu, n: nat, cr3: bv64, es: seq<Event>)
    requires Inv(m, c, n) && Legal(c, cr3, es)
    ensures AlwaysRestored(m, c, cr3, es) <==> FewFaults(es, n)
    decreases |es|
  {
    if |es| > 0 {
      if es[0].PageFault? {
        FaultKeepsInv(m, c, n, cr3, es[0].fault);
        RestoredIff(m, Open(c, cr3, es[0].fault), n + 1, cr3, es[1..]);
      } else {
        TrapRestoresIffFew(m, c, n);
        if n <= MAX_PF_ENTRY_COUNT { RestoredIff(m, Trap(c), 0, cr3, es[1..]); }
      }
    }
  }

  /** In any run of faults and debug exceptions, the page table after every debug exception is the one from
      before the first fault, if and only if no debug exception comes after more than ten faults. */
  lemma TableIsRestoredIffFewFaults(m: Memory, cr3: bv64, es: seq<Event>)
    requires Legal(Cpu(m, []), cr3, es)
    ensures AlwaysRestored(m, Cpu(m, []), cr3, es) <==> FewFaults(es, 0)
  {
    RestoredIff(m, Cpu(m, []), 0, cr3, es);
  }

  /** Storing into an entry that is not on the way to a's entry leaves the way as it was. */
  lemma WalkUnchanged(m: Memory, cr3: bv64, a: bv64, p: Place, e: bv64)
    requires p != Pml4Entry(cr3, a) && p != PdptEntry(m, cr3, a)
    ensures PdEntry(Store(m, p, e), cr3, a) == PdEntry(m, cr3, a)
  {
  }

  /** The faulting access now succeeds: the walk ends at the same entry, and the entry is open, provided no table
      on the way is its own entry.  (SmallMaps and LargeMaps: it maps the address to itself.) */
  lemma FaultOpensItsPage(c: Cpu, cr3: bv64, f: Fault, p: Place, large: bool)
    requires f.address <= 0xFFFF_FFFF && p == Leaf(c.memory, cr3, f.address)
      && large == IsLarge(c.memory, cr3, f.address)
    requires p != Pml4Entry(cr3, f.address) && p != PdptEntry(c.memory, cr3, f.address)
    requires large || p != PdEntry(c.memory, cr3, f.address)
    ensures Leaf(Open(c, cr3, f).memory, cr3, f.address) == p && IsOpen(Open(c, cr3, f).memory(p))
  {
    OpenedIsOpen(large, f);
    if large { LargeMaps(f.address, f.errorCode & EC_ID != 0); }
    WalkUnchanged(c.memory, cr3, f.address, p, Opened(large, f));
  }
}
