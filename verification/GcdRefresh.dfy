/** RefreshGcdMemoryAttributes of IA32FamilyCpuPkg/CpuArchDxe/MemoryAttribute.c: four passes of interval
    writes give every address the cache type that the precedence rules of the MTRRs give it. */
module GcdRefresh {
  import opened GcdMap

  const CACHE_UNCACHEABLE: bv8 := 0
  const CACHE_WRITE_COMBINING: bv8 := 1
  const CACHE_WRITE_THROUGH: bv8 := 4
  const CACHE_WRITE_PROTECTED: bv8 := 5
  const CACHE_WRITE_BACK: bv8 := 6

  function GetMemorySpaceAttributeFromMtrrType(t: bv8): bv64 {
    if t == CACHE_UNCACHEABLE then MEMORY_UC
    else if t == CACHE_WRITE_COMBINING then MEMORY_WC
    else if t == CACHE_WRITE_THROUGH then MEMORY_WT
    else if t == CACHE_WRITE_PROTECTED then MEMORY_WP
    else if t == CACHE_WRITE_BACK then MEMORY_WB
    else 0
  }

  /** The attribute bits of the five memory types, and nothing for any other code. */
  predicate IsAttributeOf(t: bv8, a: bv64) {
    match t
    case 0 => a == 0x1
    case 1 => a == 0x2
    case 4 => a == 0x4
    case 5 => a == 0x1000
    case 6 => a == 0x8
    case _ => a == 0
  }

  lemma AttributeBits(t: bv8)
    ensures IsAttributeOf(t, GetMemorySpaceAttributeFromMtrrType(t))
  {
  }

  // ---- variable MTRRs ----

  datatype VariableMtrr = VariableMtrr(valid: bool, base: nat, length: nat, kind: bv8)
  {
    predicate Covers(x: nat) { base <= x < base + length }
  }

  datatype Pass = WriteBack | Others | Uncacheable

  function PassOf(t: bv8): Pass {
    if t == CACHE_WRITE_BACK then WriteBack else if t == CACHE_UNCACHEABLE then Uncacheable else Others
  }

  /** Among the first n ranges, the last valid one of pass p that lies inside the map and covers x, or -1. */
  function LastOf(m: seq<Descriptor>, v: seq<VariableMtrr>, n: nat, p: Pass, x: nat): (k: int)
    requires n <= |v|
    ensures -1 <= k < n
    ensures k >= 0 ==> v[k].valid && PassOf(v[k].kind) == p && v[k].base + v[k].length <= Top(m) && v[k].Covers(x)
    ensures forall j :: k < j < n && v[j].valid && PassOf(v[j].kind) == p && v[j].base + v[j].length <= Top(m) ==>
      !v[j].Covers(x)
  {
    if n == 0 then -1
    else if v[n - 1].valid && PassOf(v[n - 1].kind) == p && v[n - 1].base + v[n - 1].length <= Top(m)
      && v[n - 1].Covers(x)
    then n - 1
    else LastOf(m, v, n - 1, p, x)
  }

  /** The cache type of x after pass p, given the type t before it. */
  function AfterPass(m: seq<Descriptor>, v: seq<VariableMtrr>, n: nat, p: Pass, x: nat, t: bv64): bv64
    requires n <= |v|
  {
    var k := LastOf(m, v, n, p, x);
    if k < 0 then t else GetMemorySpaceAttributeFromMtrrType(v[k].kind)
  }

  lemma AfterNone(m: seq<Descriptor>, v: seq<VariableMtrr>, p: Pass, x: nat, t: bv64)
    ensures AfterPass(m, v, 0, p, x, t) == t
  {
  }

  lemma AfterOneMore(m: seq<Descriptor>, v: seq<VariableMtrr>, n: nat, p: Pass, x: nat, t: bv64)
    requires n < |v|
    ensures AfterPass(m, v, n + 1, p, x, t)
         == if v[n].valid && PassOf(v[n].kind) == p && v[n].base + v[n].length <= Top(m) && v[n].Covers(x)
            then GetMemorySpaceAttributeFromMtrrType(v[n].kind) else AfterPass(m, v, n, p, x, t)
  {
  }

  // ---- fixed MTRRs ----

  datatype FixedMtrr = FixedMtrr(base: nat, length: nat)

  /** mFixedMtrrTable, without the MSR numbers. */
  const FIXED_MTRR_TABLE: seq<FixedMtrr> := [
    FixedMtrr(0, 0x1_0000),
    FixedMtrr(0x8_0000, 0x4000), FixedMtrr(0xA_0000, 0x4000),
    FixedMtrr(0xC_0000, 0x1000), FixedMtrr(0xC_8000, 0x1000),
    FixedMtrr(0xD_0000, 0x1000), FixedMtrr(0xD_8000, 0x1000),
    FixedMtrr(0xE_0000, 0x1000), FixedMtrr(0xE_8000, 0x1000),
    FixedMtrr(0xF_0000, 0x1000), FixedMtrr(0xF_8000, 0x1000)]

  const FIXED_MTRRS: nat := 11

  /** Where the k-th of the 88 sub-ranges starts: 8 of 64KB, 16 of 16KB, 64 of 4KB; the 89th would start at 1MB. */
  function FixedStart(k: nat): (r: nat)
    requires k <= 88
  {
    if k < 8 then k * 0x1_0000 else if k < 24 then 0x8_0000 + (k - 8) * 0x4000 else 0xC_0000 + (k - 24) * 0x1000
  }

  /** The memory type of sub-range number sub of a register: the register, shifted by sub * 8, as a UINT8. */
  function TypeByte(register: bv64, sub: nat): bv8
    requires sub < 8
  {
    var shifted := match sub
      case 0 => register
      case 1 => register >> 8
      case 2 => register >> 16
      case 3 => register >> 24
      case 4 => register >> 32
      case 5 => register >> 40
      case 6 => register >> 48
      case _ => register >> 56;
    (shifted & 0xFF) as bv8
  }

  /** Sub-range number sub is in bits 8 * sub to 8 * sub + 7. */
  lemma TypeBytes(register: bv64)
    ensures register == (TypeByte(register, 0) as bv64) | ((TypeByte(register, 1) as bv64) << 8)
      | ((TypeByte(register, 2) as bv64) << 16) | ((TypeByte(register, 3) as bv64) << 24)
      | ((TypeByte(register, 4) as bv64) << 32) | ((TypeByte(register, 5) as bv64) << 40)
      | ((TypeByte(register, 6) as bv64) << 48) | ((TypeByte(register, 7) as bv64) << 56)
  {
  }

  function FixedAttribute(registers: seq<bv64>, k: nat): bv64
    requires |registers| == FIXED_MTRRS && k < 88
  {
    GetMemorySpaceAttributeFromMtrrType(TypeByte(registers[k / 8], k % 8))
  }

  /** The sub-range of an address below 1MB: 64KB, then 16KB, then 4KB ranges. */
  function FixedIndex(x: nat): (k: nat)
    requires x < ONE_MB
    ensures k < 88
  {
    if x < 0x8_0000 then x / 0x1_0000
    else if x < 0xC_0000 then 8 + (x - 0x8_0000) / 0x4000
    else 24 + (x - 0xC_0000) / 0x1000
  }

  /** The sub-ranges tile the first megabyte. */
  lemma FixedTiles(x: nat, k: nat)
    requires x < ONE_MB && k < 88
    ensures FixedStart(k) < FixedStart(k + 1)
    ensures FixedStart(k) <= x < FixedStart(k + 1) <==> k == FixedIndex(x)
  {
  }

  lemma {:induction false} FixedMonotone(j: nat, k: nat)
    requires j <= k <= 88
    ensures FixedStart(j) <= FixedStart(k)
  {
  }

  lemma FixedSpan(lo: nat, hi: nat, x: nat)
    requires lo <= hi <= 88 && x < ONE_MB
    ensures FixedStart(lo) <= x < FixedStart(hi) <==> lo <= FixedIndex(x) < hi
  {
  }

  // ---- what the whole refresh should give ----

  /** The effective cache type by the precedence rules (Intel SDM volume 3A, section 11.11.4.1): the fixed
      MTRRs below 1MB; above, UC over every other type, then the last other type but WB, then WB, then the default. */
  function EffectiveType(m: seq<Descriptor>, v: seq<VariableMtrr>, n: nat, default: bv8, registers: seq<bv64>,
                         x: nat): bv64
    requires n <= |v| && |registers| == FIXED_MTRRS
  {
    if x < ONE_MB then FixedAttribute(registers, FixedIndex(x))
    else if LastOf(m, v, n, Uncacheable, x) >= 0 then MEMORY_UC
    else if LastOf(m, v, n, Others, x) >= 0 then GetMemorySpaceAttributeFromMtrrType(v[LastOf(m, v, n, Others, x)].kind)
    else if LastOf(m, v, n, WriteBack, x) >= 0 then MEMORY_WB
    else GetMemorySpaceAttributeFromMtrrType(default)
  }

  /** Every existing address shows cache type t; everything else is as it was. */
  ghost predicate Shows(m: seq<Descriptor>, was: nat -> bv64, now: nat -> bv64, t: nat -> bv64) {
    && (forall i, x: nat :: 0 <= i < |m| && m[i].Has(x) ==>
      now(x) == if m[i].existent then m[i].Blend(t(x)) else was(x))
    && forall x: nat :: Top(m) <= x ==> now(x) == was(x)
  }

  function Over(t: nat -> bv64, base: nat, length: nat, a: bv64): nat -> bv64 {
    (x: nat) => if base <= x < base + length then a else t(x)
  }

  /** Writing a range changes the shown type of just that range. */
  lemma WritesOver(m: seq<Descriptor>, was: nat -> bv64, now: nat -> bv64, next: nat -> bv64, t: nat -> bv64,
                   base: nat, length: nat, a: bv64)
    requires Shows(m, was, now, t) && Writes(m, now, next, base, length, a)
    ensures Shows(m, was, next, Over(t, base, length, a))
  {
  }

  // ---- the passes ----

  /** The run being collected, as the source's three variables. */
  datatype Run = Run(base: nat, length: nat, attributes: bv64)

  /** The run consists of the sub-ranges first..k, which all have the same type. */
  ghost predicate FixedRun(registers: seq<bv64>, first: nat, k: nat, run: Run) {
    && |registers| == FIXED_MTRRS && first <= k <= 88
    && run.base == FixedStart(first) && run.base + run.length == FixedStart(k)
    && forall j :: first <= j < k ==> FixedAttribute(registers, j) == run.attributes
  }

  /** The table holds the sub-ranges, eight to a register. */
  lemma FixedNext(index: nat, sub: nat)
    requires index < FIXED_MTRRS && sub < 8
    ensures (index * 8 + sub) / 8 == index && (index * 8 + sub) % 8 == sub
    ensures FixedStart(index * 8 + sub) == FIXED_MTRR_TABLE[index].base + FIXED_MTRR_TABLE[index].length * sub
    ensures FixedStart(index * 8 + sub + 1) == FixedStart(index * 8 + sub) + FIXED_MTRR_TABLE[index].length
  {
  }

  /** The first k sub-ranges have been written one by one, as far as t shows. */
  ghost predicate FixedSoFar(registers: seq<bv64>, k: nat, before: nat -> bv64, t: nat -> bv64) {
    && |registers| == FIXED_MTRRS && k <= 88
    && forall x: nat ::
      t(x) == if x < FixedStart(k) && x < ONE_MB then FixedAttribute(registers, FixedIndex(x)) else before(x)
  }

  /** Writing a run of equal sub-ranges at once is writing them one by one. */
  method WriteRun(gcd: Gcd, m: seq<Descriptor>, registers: seq<bv64>, ghost first: nat, ghost k: nat, run: Run,
                  ghost was: nat -> bv64, ghost before: nat -> bv64, ghost t: nat -> bv64)
    returns (ghost t': nat -> bv64)
    requires IsMap(m) && run.length > 0 && FixedRun(registers, first, k, run)
    requires Shows(m, was, gcd.attributes, t) && FixedSoFar(registers, first, before, t)
    modifies gcd
    ensures Shows(m, was, gcd.attributes, t') && FixedSoFar(registers, k, before, t')
  {
    FixedMonotone(k, 88);
    ghost var now := gcd.attributes;
    var found := SetGcdMemorySpaceAttributes(gcd, m, run.base, run.length, run.attributes);
    WritesOver(m, was, now, gcd.attributes, t, run.base, run.length, run.attributes);
    t' := Over(t, run.base, run.length, run.attributes);
    forall x: nat | x < ONE_MB ensures FixedStart(first) <= x < FixedStart(k) <==> first <= FixedIndex(x) < k {
      FixedSpan(first, k, x);
    }
  }

  /** Lines 332-342 */
  method DefaultPass(gcd: Gcd, m: seq<Descriptor>, a: bv64)
    requires IsMap(m)
    modifies gcd
    ensures Shows(m, old(gcd.attributes), gcd.attributes, _ => a)
  {
    ghost var was := gcd.attributes;
    for index := 0 to |m|
      invariant forall i, x: nat :: 0 <= i < index && m[i].Has(x) ==>
        gcd.attributes(x) == if m[i].existent then m[i].Blend(a) else was(x)
      invariant forall x: nat :: Edge(m, index) <= x ==> gcd.attributes(x) == was(x)
    {
      Sorted(m, index, index + 1);
      forall i | 0 <= i < index ensures m[i].base + m[i].length <= m[index].base { Sorted(m, i, index); }
      if m[index].existent {
        gcd.SetMemorySpaceAttributes(m[index].base, m[index].length, m[index].Blend(a));
      }
    }
  }

  /** Lines 347-358, 362-375 and 379-390: one pass over the variable MTRRs. */
  method VariablePass(gcd: Gcd, m: seq<Descriptor>, v: seq<VariableMtrr>, count: nat, p: Pass,
                      ghost was: nat -> bv64, ghost before: nat -> bv64) returns (ghost t: nat -> bv64)
    requires IsMap(m) && count <= |v| && (forall i :: 0 <= i < count && v[i].valid ==> v[i].length > 0)
    requires Shows(m, was, gcd.attributes, before)
    modifies gcd
    ensures Shows(m, was, gcd.attributes, t)
    ensures forall x: nat :: t(x) == AfterPass(m, v, count, p, x, before(x))
  {
    hide Shows, IsMap, AfterPass;
    t := before;
    forall x: nat {
      AfterNone(m, v, p, x, before(x));
    }
    for index := 0 to count
      invariant Shows(m, was, gcd.attributes, t)
      invariant forall x: nat :: t(x) == AfterPass(m, v, index, p, x, before(x))
    {
      forall x: nat {
        AfterOneMore(m, v, index, p, x, before(x));
      }
      if v[index].valid && PassOf(v[index].kind) == p {
        var a := GetMemorySpaceAttributeFromMtrrType(v[index].kind);
        ghost var now := gcd.attributes;
        var found := SetGcdMemorySpaceAttributes(gcd, m, v[index].base, v[index].length, a);
        if found {
          WritesOver(m, was, now, gcd.attributes, t, v[index].base, v[index].length, a);
          t := Over(t, v[index].base, v[index].length, a);
        }
      }
    }
  }

  lemma Joins(registers: seq<bv64>, first: nat, k: nat, run: Run, length: nat)
    requires k < 88 && FixedRun(registers, first, k, run) && FixedStart(k + 1) == FixedStart(k) + length
    requires FixedAttribute(registers, k) == run.attributes
    ensures FixedRun(registers, first, k + 1, run.(length := run.length + length))
  {
  }

  /** Lines 405-429: one sub-range either joins the run or starts a new one. */
  method NextSubRange(gcd: Gcd, m: seq<Descriptor>, registers: seq<bv64>, index: nat, sub: nat, run: Run,
                      ghost first: nat, ghost was: nat -> bv64, ghost before: nat -> bv64, ghost t: nat -> bv64)
    returns (run': Run, ghost first': nat, ghost t': nat -> bv64)
    requires IsMap(m) && index < FIXED_MTRRS && sub < 8
    requires FixedRun(registers, first, index * 8 + sub, run) && (index * 8 + sub > 0 ==> run.length > 0)
    requires Shows(m, was, gcd.attributes, t) && FixedSoFar(registers, first, before, t)
    modifies gcd
    ensures FixedRun(registers, first', index * 8 + sub + 1, run') && run'.length > 0
    ensures Shows(m, was, gcd.attributes, t') && FixedSoFar(registers, first', before, t')
  {
    ghost var k := index * 8 + sub;
    FixedNext(index, sub);
    var currentAttributes := GetMemorySpaceAttributeFromMtrrType(TypeByte(registers[index], sub));
    if run.length == 0 {
      run', first', t' := run.(attributes := currentAttributes), first, t;
    } else if currentAttributes != run.attributes {
      t' := WriteRun(gcd, m, registers, first, k, run, was, before, t);
      first' := k;
      run' := Run(FIXED_MTRR_TABLE[index].base + FIXED_MTRR_TABLE[index].length * sub, 0, currentAttributes);
    } else {
      run', first', t' := run, first, t;
    }
    Joins(registers, first', k, run', FIXED_MTRR_TABLE[index].length);
    run' := run'.(length := run'.length + FIXED_MTRR_TABLE[index].length);
  }

  /** Lines 395-441: runs of equal fixed types are written together, with the effect of writing all 88
      sub-ranges one by one. */
  method FixedPass(gcd: Gcd, m: seq<Descriptor>, registers: seq<bv64>,
                   ghost was: nat -> bv64, ghost before: nat -> bv64) returns (ghost t: nat -> bv64)
    requires IsMap(m) && |registers| == FIXED_MTRRS && Shows(m, was, gcd.attributes, before)
    modifies gcd
    ensures Shows(m, was, gcd.attributes, t)
    ensures forall x: nat :: t(x) == if x < ONE_MB then FixedAttribute(registers, FixedIndex(x)) else before(x)
  {
    t := before;
    var run := Run(0, 0, 0);
    ghost var first: nat := 0;
    for index := 0 to FIXED_MTRRS
      invariant FixedRun(registers, first, index * 8, run) && (index > 0 ==> run.length > 0)
      invariant Shows(m, was, gcd.attributes, t) && FixedSoFar(registers, first, before, t)
    {
      for sub := 0 to 8
        invariant FixedRun(registers, first, index * 8 + sub, run) && (index * 8 + sub > 0 ==> run.length > 0)
        invariant Shows(m, was, gcd.attributes, t) && FixedSoFar(registers, first, before, t)
      {
        run, first, t := NextSubRange(gcd, m, registers, index, sub, run, first, was, before, t);
      }
    }
    t := WriteRun(gcd, m, registers, first, 88, run, was, before, t);
  }

  /** Every existing address shows the effective cache type of the MTRRs; nothing else has changed. */
  ghost predicate Refreshed(m: seq<Descriptor>, v: seq<VariableMtrr>, count: nat, default: bv8, registers: seq<bv64>,
                            was: nat -> bv64, now: nat -> bv64)
    requires count <= |v| && |registers| == FIXED_MTRRS
  {
    && (forall i, x: nat :: 0 <= i < |m| && m[i].Has(x) ==>
      now(x) == if m[i].existent then m[i].Blend(EffectiveType(m, v, count, default, registers, x)) else was(x))
    && forall x: nat :: Top(m) <= x ==> now(x) == was(x)
  }

  /** RefreshGcdMemoryAttributes gives every existing address the effective cache type of the MTRRs. */
  method RefreshGcdMemoryAttributes(gcd: Gcd, m: seq<Descriptor>, v: seq<VariableMtrr>, count: nat, default: bv8,
                                    registers: seq<bv64>)
    requires IsMap(m) && |registers| == FIXED_MTRRS
    requires count <= |v| && forall i :: 0 <= i < count && v[i].valid ==> v[i].length > 0
    modifies gcd
    ensures Refreshed(m, v, count, default, registers, old(gcd.attributes), gcd.attributes)
  {
    hide Shows, Refreshed, IsMap, EffectiveType;
    ghost var was := gcd.attributes;
    var defaultAttributes := GetMemorySpaceAttributeFromMtrrType(default);
    DefaultPass(gcd, m, defaultAttributes);
    ghost var t1 := VariablePass(gcd, m, v, count, WriteBack, was, _ => defaultAttributes);
    ghost var t2 := VariablePass(gcd, m, v, count, Others, was, t1);
    ghost var t3 := VariablePass(gcd, m, v, count, Uncacheable, was, t2);
    ghost var t4 := FixedPass(gcd, m, registers, was, t3);
    forall x: nat ensures t4(x) == EffectiveType(m, v, count, default, registers, x) {
      PassesAreEffective(m, v, count, default, registers, x);
    }
    ShowsRefreshed(m, v, count, default, registers, was, gcd.attributes, t4);
  }

  /** The passes in this order are the precedence of the types. */
  lemma PassesAreEffective(m: seq<Descriptor>, v: seq<VariableMtrr>, n: nat, default: bv8, registers: seq<bv64>, x: nat)
    requires n <= |v| && |registers| == FIXED_MTRRS
    ensures var t1 := AfterPass(m, v, n, WriteBack, x, GetMemorySpaceAttributeFromMtrrType(default));
      var t3 := AfterPass(m, v, n, Uncacheable, x, AfterPass(m, v, n, Others, x, t1));
      EffectiveType(m, v, n, default, registers, x)
      == if x < ONE_MB then FixedAttribute(registers, FixedIndex(x)) else t3
  {
  }

  lemma ShowsRefreshed(m: seq<Descriptor>, v: seq<VariableMtrr>, n: nat, default: bv8, registers: seq<bv64>,
                       was: nat -> bv64, now: nat -> bv64, t: nat -> bv64)
    requires n <= |v| && |registers| == FIXED_MTRRS && Shows(m, was, now, t)
    requires forall x: nat :: t(x) == EffectiveType(m, v, n, default, registers, x)
    ensures Refreshed(m, v, n, default, registers, was, now)
  {
    hide EffectiveType;
  }

  // ---- is the effective type the documented one? ----

  /** The types of the three passes. */
  predicate IsKind(t: bv8, p: Pass) {
    match p
    case WriteBack => t == 6
    case Uncacheable => t == 0
    case Others => t != 6 && t != 0
  }

  /** Some valid variable MTRR of the types of pass p covers x. */
  ghost predicate Covered(v: seq<VariableMtrr>, n: nat, p: Pass, x: nat)
    requires n <= |v|
  {
    exists i :: 0 <= i < n && v[i].valid && IsKind(v[i].kind, p) && v[i].Covers(x)
  }

  /** t is the type of x by the documented rules, over all valid variable MTRRs. */
  ghost predicate Documented(v: seq<VariableMtrr>, n: nat, default: bv8, registers: seq<bv64>, x: nat, t: bv64)
    requires n <= |v| && |registers| == FIXED_MTRRS
  {
    if x < ONE_MB then
      exists k :: 0 <= k < 88 && FixedStart(k) <= x < FixedStart(k + 1)
        && IsAttributeOf(TypeByte(registers[k / 8], k % 8), t)
    else if Covered(v, n, Uncacheable, x) then t == 0x1
    else if Covered(v, n, Others, x) then
      exists i :: 0 <= i < n && v[i].valid && IsKind(v[i].kind, Others) && v[i].Covers(x)
        && IsAttributeOf(v[i].kind, t)
        && forall j :: i < j < n && v[j].valid && IsKind(v[j].kind, Others) ==> !v[j].Covers(x)
    else if Covered(v, n, WriteBack, x) then t == 0x8
    else IsAttributeOf(default, t)
  }

  /** Every valid range is inside the map, or outside it altogether. */
  ghost predicate EndInside(m: seq<Descriptor>, v: seq<VariableMtrr>, n: nat)
    requires n <= |v|
  {
    forall i :: 0 <= i < n && v[i].valid ==> v[i].base + v[i].length <= Top(m) || Top(m) <= v[i].base
  }

  lemma InsideIsDocumented(m: seq<Descriptor>, v: seq<VariableMtrr>, n: nat, default: bv8, registers: seq<bv64>, x: nat)
    requires n <= |v| && |registers| == FIXED_MTRRS && EndInside(m, v, n) && x < Top(m)
    ensures Documented(v, n, default, registers, x, EffectiveType(m, v, n, default, registers, x))
  {
    hide GetMemorySpaceAttributeFromMtrrType, IsAttributeOf, TypeByte;
    if x < ONE_MB {
      FixedTiles(x, FixedIndex(x));
      AttributeBits(TypeByte(registers[FixedIndex(x) / 8], FixedIndex(x) % 8));
    } else {
      AttributeBits(default);
      var k := LastOf(m, v, n, Others, x);
      if k >= 0 { AttributeBits(v[k].kind); }
      LastIsCovered(m, v, n, Uncacheable, x);
      LastIsCovered(m, v, n, Others, x);
      LastIsCovered(m, v, n, WriteBack, x);
    }
  }

  lemma LastIsCovered(m: seq<Descriptor>, v: seq<VariableMtrr>, n: nat, p: Pass, x: nat)
    requires n <= |v| && EndInside(m, v, n) && x < Top(m)
    ensures LastOf(m, v, n, p, x) >= 0 <==> Covered(v, n, p, x)
    ensures forall j :: LastOf(m, v, n, p, x) < j < n && v[j].valid && PassOf(v[j].kind) == p ==> !v[j].Covers(x)
  {
  }

  /** The same ranges, with any types. */
  ghost predicate SameRanges(v: seq<VariableMtrr>, w: seq<VariableMtrr>) {
    |v| == |w| && forall i :: 0 <= i < |v| ==> w[i] == v[i].(kind := w[i].kind)
  }

  /** The refresh follows the documented rules exactly when every valid range that begins inside the map also
      ends inside it: a range reaching past the end is ignored as a whole (line 188). */
  lemma RefreshIsDocumented(m: seq<Descriptor>, v: seq<VariableMtrr>, n: nat)
    requires IsMap(m) && ONE_MB < Top(m) && n <= |v|
    ensures EndInside(m, v, n) <==> forall w, default, registers, x: nat ::
      SameRanges(v, w) && |registers| == FIXED_MTRRS && x < Top(m) ==>
        Documented(w, n, default, registers, x, EffectiveType(m, w, n, default, registers, x))
  {
    if EndInside(m, v, n) {
      forall w, default, registers, x: nat | SameRanges(v, w) && |registers| == FIXED_MTRRS && x < Top(m)
        ensures Documented(w, n, default, registers, x, EffectiveType(m, w, n, default, registers, x))
      {
        InsideIsDocumented(m, w, n, default, registers, x);
      }
    } else {
      var k :| 0 <= k < n && v[k].valid && v[k].base < Top(m) < v[k].base + v[k].length;
      var w := RangeIgnored(m, v, n, k);
      var registers := seq(FIXED_MTRRS, _ => 0 as bv64);
      assert !Documented(w, n, CACHE_WRITE_BACK, registers, Top(m) - 1,
                         EffectiveType(m, w, n, CACHE_WRITE_BACK, registers, Top(m) - 1));
    }
  }

  /** The counterexample: an uncacheable range over the last address of the map, and everything else WB. */
  lemma RangeIgnored(m: seq<Descriptor>, v: seq<VariableMtrr>, n: nat, k: nat) returns (w: seq<VariableMtrr>)
    requires k < n <= |v| && v[k].valid && v[k].base < Top(m) < v[k].base + v[k].length
    ensures SameRanges(v, w) && Covered(w, n, Uncacheable, Top(m) - 1)
    ensures LastOf(m, w, n, Uncacheable, Top(m) - 1) == LastOf(m, w, n, Others, Top(m) - 1) == -1
  {
    w := seq(|v|, i requires 0 <= i < |v| => v[i].(kind := if i == k then CACHE_UNCACHEABLE else CACHE_WRITE_BACK));
    assert w[k].Covers(Top(m) - 1);
  }

  // ---- what a refresh does to the attribute bits ----

  /** The cache type of an address replaced again by the same type. */
  lemma BlendTwice(d: Descriptor, e: Descriptor, t: bv64)
    requires e.attributes == d.Blend(t) && e.capabilities == d.capabilities
    ensures e.Blend(t) == d.Blend(t)
  {
  }

  /** The map read after the attributes have become `now`: possibly cut more finely, but with the same addresses
      and the same capabilities, and with the new attributes. */
  ghost predicate IsReadBack(m: seq<Descriptor>, now: nat -> bv64, m': seq<Descriptor>) {
    && IsMap(m') && Top(m') == Top(m)
    && forall i, j, x: nat :: 0 <= i < |m| && 0 <= j < |m'| && m[i].Has(x) && m'[j].Has(x) ==>
      && m'[j].existent == m[i].existent && m'[j].capabilities == m[i].capabilities
      && (m[i].existent ==> m'[j].attributes == now(x))
  }

  /** Some descriptor of a map has each address below its top. */
  lemma {:induction false} Owner(m: seq<Descriptor>, k: nat, x: nat) returns (i: nat)
    requires IsMap(m) && k <= |m| && x < Edge(m, k)
    ensures i < k && m[i].Has(x)
  {
    if x >= m[k - 1].base {
      i := k - 1;
      Sorted(m, k - 1, k);
      assert k < |m| ==> m[k - 1 + 1].base == m[k - 1].base + m[k - 1].length;
    } else {
      i := Owner(m, k - 1, x);
    }
  }

  /** Which range decides depends only on where the map ends. */
  lemma {:induction false} SameTop(m: seq<Descriptor>, m': seq<Descriptor>, v: seq<VariableMtrr>, n: nat, p: Pass,
                                   x: nat)
    requires n <= |v| && Top(m') == Top(m)
    ensures LastOf(m', v, n, p, x) == LastOf(m, v, n, p, x)
  {
    if n > 0 { SameTop(m, m', v, n - 1, p, x); }
  }

  lemma SameTypes(m: seq<Descriptor>, m': seq<Descriptor>, v: seq<VariableMtrr>, n: nat, default: bv8,
                  registers: seq<bv64>, x: nat)
    requires n <= |v| && |registers| == FIXED_MTRRS && Top(m') == Top(m)
    ensures EffectiveType(m', v, n, default, registers, x) == EffectiveType(m, v, n, default, registers, x)
  {
    SameTop(m, m', v, n, Uncacheable, x);
    SameTop(m, m', v, n, Others, x);
    SameTop(m, m', v, n, WriteBack, x);
  }

  /** A second refresh, on the map as it reads after the first one, with the same MTRRs, changes nothing. */
  lemma RefreshTwice(m: seq<Descriptor>, m': seq<Descriptor>, v: seq<VariableMtrr>, n: nat, default: bv8,
                     registers: seq<bv64>, was: nat -> bv64, now: nat -> bv64, next: nat -> bv64, x: nat)
    requires IsMap(m) && n <= |v| && |registers| == FIXED_MTRRS
    requires Refreshed(m, v, n, default, registers, was, now)
    requires IsReadBack(m, now, m') && Refreshed(m', v, n, default, registers, now, next)
    ensures next(x) == now(x)
  {
    if x < Top(m) {
      var i := Owner(m, |m|, x);
      var j := Owner(m', |m'|, x);
      hide EffectiveType, IsMap, Top, Descriptor.Blend;
      SameTypes(m, m', v, n, default, registers, x);
      if m[i].existent { BlendTwice(m[i], m'[j], EffectiveType(m, v, n, default, registers, x)); }
    }
  }

  /** The bits that are not cache types are kept.  The cache type bits, WP included, become exactly the type the
      capabilities allow, if and only if no WP bit was there before or WP is set again: WP is not in the mask
      that is cleared. */
  lemma BlendReplacesType(d: Descriptor, t: bv8)
    ensures var a := GetMemorySpaceAttributeFromMtrrType(t);
      && d.Blend(a) & !0x101F == d.attributes & !0x101F
      && (d.Blend(a) & 0x101F == d.capabilities & a <==> d.attributes & 0x1000 == 0 || d.capabilities & a & 0x1000 != 0)
  {
  }
}
