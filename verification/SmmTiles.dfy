/** The tiles of SMI handlers and save states: IA32FamilyCpuPkg/PiSmmCpuDxeSmm/PiSmmCpuDxeSmm.c, lines 932-965,
    and MpService.c, lines 892-897 and 962-972. */
module SmmTiles {
  import opened Arithmetic

  const SIZE_32KB: nat := 0x8000
  const SIZE_64KB: nat := 0x1_0000
  const SMM_HANDLER_OFFSET: nat := 0x8000
  const SMM_PSD_OFFSET: nat := 0xFB00
  const SMM_CPU_STATE_OFFSET: nat := 0xFC00
  const SMM_CPU_INTERVAL: nat := 0x800

  /** The sizes of a save state, of a PROCESSOR_SMM_DESCRIPTOR and of the SMI handler. */
  datatype Sizes = Sizes(save: nat, psd: nat, handler: nat)
  {
    function Total(): nat { save + psd + handler }
  }

  predicate IsPower(t: nat) {
    t == 1 || (t > 1 && t % 2 == 0 && IsPower(t / 2))
  }

  /** GetPowerOfTwo32: the largest power of two up to x. */
  function GetPowerOfTwo(x: nat): (r: nat)
    requires x > 0
    ensures IsPower(r) && r <= x < 2 * r
  {
    if x == 1 then 1 else 2 * GetPowerOfTwo(x / 2)
  }

  function TileSize(z: Sizes): (t: nat)
    requires z.Total() >= 2
    ensures IsPower(t) && z.Total() <= t && t / 2 < z.Total()
  {
    2 * GetPowerOfTwo(z.Total() - 1)
  }

  /** A smaller power of two divides a larger one. */
  lemma {:induction false} PowerDivides(t: nat, u: nat) returns (m: nat)
    requires IsPower(t) && IsPower(u) && t <= u
    ensures m >= 1 && u == m * t
  {
    if t == 1 {
      m := u;
    } else {
      m := PowerDivides(t / 2, u / 2);
      assert u == 2 * (m * (t / 2)) == m * (2 * (t / 2));
    }
  }

  predicate Overlap(a: int, aSize: nat, b: int, bSize: nat) { a < b + bSize && b < a + aSize }

  predicate Within(a: int, aSize: nat, b: int, bSize: nat) { b <= a && a + aSize <= b + bSize }

  /** The assertions of MpService.c, lines 896-897. */
  predicate IsGuarded(z: Sizes, psdOffset: nat, interval: nat)
    requires interval > 0
  {
    z.handler + SIZE_64KB - psdOffset < interval && SMM_HANDLER_OFFSET % interval == 0
  }

  /** The source's save state fills the 64KB up to the end, and its descriptor fits below. */
  predicate IsSourceSize(z: Sizes) {
    && z.save == SIZE_64KB - SMM_CPU_STATE_OFFSET
    && z.psd > 0 && SMM_PSD_OFFSET + z.psd <= SMM_CPU_STATE_OFFSET
  }

  function SmBase(buffer: nat, z: Sizes, i: nat): int
    requires z.Total() >= 2
  {
    buffer + i * TileSize(z) - SIZE_32KB
  }

  lemma BaseIs(buffer: nat, z: Sizes, i: nat)
    requires z.Total() >= 2
    ensures SmBase(buffer, z, i) == buffer + i * TileSize(z) - SIZE_32KB
  {
  }

  function SaveState(buffer: nat, z: Sizes, i: nat): int
    requires z.Total() >= 2
  {
    SmBase(buffer, z, i) + SIZE_64KB - z.save
  }

  function Handler(buffer: nat, z: Sizes, i: nat): int
    requires z.Total() >= 2
  {
    SmBase(buffer, z, i) + SMM_HANDLER_OFFSET
  }

  /** The descriptor, at SMM_PSD_OFFSET. */
  function Psd(buffer: nat, z: Sizes, psdOffset: nat, i: nat): int
    requires z.Total() >= 2
  {
    SmBase(buffer, z, i) + psdOffset
  }

  lemma PowerOf32KB()
    ensures IsPower(SIZE_32KB)
  {
  }

  /** 32KB is a whole number m of tiles. */
  lemma WholeTiles(z: Sizes) returns (m: nat)
    requires z.Total() >= 2 && TileSize(z) <= SIZE_32KB
    ensures m >= 1 && SIZE_32KB == m * TileSize(z) && m == SIZE_32KB / TileSize(z)
  {
    PowerOf32KB();
    m := PowerDivides(TileSize(z), SIZE_32KB);
    QuotientIs(SIZE_32KB, m, TileSize(z));
  }

  lemma QuotientIs(x: nat, q: nat, m: nat)
    requires m > 0 && x == q * m
    ensures x / m == q
  {
    ModUnique(x, q, 0, m);
    assert (x / m - q) * m == 0;
    MulAtLeast(x / m - q, m);
  }

  /** Where tile i lies relative to the end of the 64KB of processor j. */
  lemma Position(t: nat, m: nat, i: nat, j: nat)
    ensures (j + m) * t == j * t + m * t
    ensures i < j + m ==> i * t + t <= (j + m) * t
    ensures i >= j + m ==> i * t >= (j + m) * t
  {
    MulAtLeast(j + m - i, t);
    assert (j + m - i) * t == (j + m) * t - i * t;
  }

  /** No SMI handler overlaps any save state. */
  lemma HandlersMissSaveStates(buffer: nat, z: Sizes, i: nat, j: nat)
    requires z.Total() >= 2 && TileSize(z) <= SIZE_32KB
    ensures !Overlap(Handler(buffer, z, i), z.handler, SaveState(buffer, z, j), z.save)
  {
    var m := WholeTiles(z);
    Position(TileSize(z), m, i, j);
  }

  lemma SaveStatesDisjoint(buffer: nat, z: Sizes, i: nat, j: nat)
    requires z.Total() >= 2 && i != j
    ensures !Overlap(SaveState(buffer, z, i), z.save, SaveState(buffer, z, j), z.save)
  {
    MulAtLeast(i - j, TileSize(z));
    assert (i - j) * TileSize(z) == i * TileSize(z) - j * TileSize(z);
  }

  lemma OneTileApart(buffer: nat, z: Sizes, i: nat)
    requires z.Total() >= 2 && i > 0
    ensures SmBase(buffer, z, i) - SmBase(buffer, z, i - 1) == TileSize(z)
  {
    assert i * TileSize(z) == (i - 1) * TileSize(z) + TileSize(z);
  }

  /** Everything lies inside the allocated buffer. */
  lemma InsideBuffer(buffer: nat, z: Sizes, psdOffset: nat, n: nat, i: nat)
    requires z.Total() >= 2 && TileSize(z) <= SIZE_32KB && i < n
    ensures var size := SIZE_32KB + TileSize(z) * (n - 1);
      && Within(Handler(buffer, z, i), z.handler, buffer, size)
      && Within(SaveState(buffer, z, i), z.save, buffer, size)
      && (SIZE_32KB <= psdOffset && psdOffset + z.psd <= SIZE_64KB ==>
          Within(Psd(buffer, z, psdOffset, i), z.psd, buffer, size))
  {
    MulAtLeast(n - 1 - i, TileSize(z));
    assert (n - 1 - i) * TileSize(z) == (n - 1) * TileSize(z) - i * TileSize(z);
  }

  /** One handler and one descriptor overlap only in the tile that ends with the 64KB of processor j. */
  lemma PairOverlaps(buffer: nat, z: Sizes, psdOffset: nat, m: nat, i: nat, j: nat)
    requires z.Total() >= 2 && SIZE_32KB == m * TileSize(z) && z.handler > 0 && z.psd > 0
    requires psdOffset + z.psd <= SIZE_64KB <= psdOffset + TileSize(z)
    ensures Overlap(Handler(buffer, z, i), z.handler, Psd(buffer, z, psdOffset, j), z.psd)
      <==> TileSize(z) < z.handler + (SIZE_64KB - psdOffset) && i + 1 == j + m
  {
    var t := TileSize(z);
    Position(t, m, i, j);
    if i + 1 < j + m {
      Position(t, m, i + 1, j);
      assert (i + 1) * t == i * t + t;
    } else if i + 1 == j + m {
      assert (i + 1) * t == i * t + t;
    }
  }

  ghost predicate HandlerHitsDescriptor(buffer: nat, z: Sizes, psdOffset: nat, i: nat, j: nat)
    requires z.Total() >= 2
  {
    Overlap(Handler(buffer, z, i), z.handler, Psd(buffer, z, psdOffset, j), z.psd)
  }

  /** With a descriptor that starts in the last tile of its 64KB, some SMI handler overlaps some descriptor exactly
      when the handler and the part of the tile from the descriptor on do not fit in one tile, and there are enough
      processors for their tiles to meet. */
  lemma HandlersMissDescriptors(buffer: nat, z: Sizes, psdOffset: nat, n: nat)
    requires z.Total() >= 2 && TileSize(z) <= SIZE_32KB && z.handler > 0 && z.psd > 0
    requires psdOffset + z.psd <= SIZE_64KB <= psdOffset + TileSize(z)
    ensures (exists i: nat, j: nat :: i < n && j < n && HandlerHitsDescriptor(buffer, z, psdOffset, i, j))
      <==> TileSize(z) < z.handler + (SIZE_64KB - psdOffset) && n >= SIZE_32KB / TileSize(z)
  {
    var m := WholeTiles(z);
    if i: nat, j: nat :| i < n && j < n && HandlerHitsDescriptor(buffer, z, psdOffset, i, j) {
      PairOverlaps(buffer, z, psdOffset, m, i, j);
    }
    if TileSize(z) < z.handler + (SIZE_64KB - psdOffset) && n >= m {
      PairOverlaps(buffer, z, psdOffset, m, m - 1, 0);
      assert HandlerHitsDescriptor(buffer, z, psdOffset, m - 1, 0);
    }
  }

  /** The assertion of line 896 rules the overlap out, for any interval that is no larger than the tile. */
  lemma GuardedNeverOverlap(buffer: nat, z: Sizes, psdOffset: nat, interval: nat, i: nat, j: nat)
    requires z.Total() >= 2 && 0 < interval <= TileSize(z) <= SIZE_32KB && psdOffset + z.psd <= SIZE_64KB
    requires IsGuarded(z, psdOffset, interval)
    ensures !Overlap(Handler(buffer, z, i), z.handler, Psd(buffer, z, psdOffset, j), z.psd)
  {
    var m := WholeTiles(z);
    Position(TileSize(z), m, i, j);
  }

  /** Between a power of two and its double there is no other one. */
  lemma {:induction false} PowersApart(t: nat, u: nat)
    requires IsPower(t) && IsPower(u) && t < u
    ensures 2 * t <= u
  {
    if t > 1 {
      PowersApart(t / 2, u / 2);
    }
  }

  /** With the source's own offsets the assertion leaves only tiles of 2KB. */
  lemma SourceTile(z: Sizes)
    requires IsSourceSize(z) && IsGuarded(z, SMM_PSD_OFFSET, SMM_CPU_INTERVAL)
    ensures TileSize(z) == 0x800
  {
    var t := TileSize(z);
    IntervalIsPower();
    if t < SMM_CPU_INTERVAL {
      PowersApart(t, SMM_CPU_INTERVAL);
    } else if t > SMM_CPU_INTERVAL {
      PowersApart(SMM_CPU_INTERVAL, t);
    }
  }

  /** The source's sizes in numbers: 1KB for the save state, up to 256 bytes for the descriptor, and by the assertion
      less than 768 for the handler. */
  lemma SourceNumbers(z: Sizes)
    ensures IsSourceSize(z) && IsGuarded(z, SMM_PSD_OFFSET, SMM_CPU_INTERVAL)
      <==> z.save == 0x400 && 0 < z.psd <= 0x100 && z.handler < 0x300
  {
  }

  lemma IntervalIsPower()
    ensures IsPower(SMM_CPU_INTERVAL)
  {
  }

  /** With the source's own offsets and line 896 no handler overlaps a descriptor, whatever the number of processors. */
  lemma SourceSizesNeverOverlap(buffer: nat, z: Sizes, i: nat, j: nat)
    requires IsSourceSize(z) && IsGuarded(z, SMM_PSD_OFFSET, SMM_CPU_INTERVAL)
    ensures !HandlerHitsDescriptor(buffer, z, SMM_PSD_OFFSET, i, j)
  {
    SourceTile(z);
    GuardedNeverOverlap(buffer, z, SMM_PSD_OFFSET, SMM_CPU_INTERVAL, i, j);
  }

  ghost predicate AreTiles(buffer: nat, z: Sizes, smBases: seq<int>, saveStates: seq<int>)
    requires z.Total() >= 2
  {
    && |smBases| == |saveStates|
    && forall i :: 0 <= i < |smBases| ==> smBases[i] == SmBase(buffer, z, i) && saveStates[i] == SaveState(buffer, z, i)
  }

  /** The first and the last 64KB span the 32KB below the buffer and the buffer; neighbours are one tile apart, and
      each save state ends its 64KB. */
  ghost predicate Spans(buffer: nat, size: nat, z: Sizes, smBases: seq<int>, saveStates: seq<int>)
    requires |smBases| == |saveStates| > 0 && z.Total() >= 2
  {
    && smBases[0] + SIZE_32KB == buffer && smBases[|smBases| - 1] + SIZE_64KB == buffer + size
    && (forall i :: 0 < i < |smBases| ==> smBases[i] - smBases[i - 1] == TileSize(z))
    && (forall i :: 0 <= i < |smBases| ==> saveStates[i] + z.save == smBases[i] + SIZE_64KB)
  }

  ghost predicate AllInside(buffer: nat, size: nat, z: Sizes, smBases: seq<int>, saveStates: seq<int>)
    requires |smBases| == |saveStates|
  {
    forall i :: 0 <= i < |smBases| ==>
      && Within(smBases[i] + SMM_HANDLER_OFFSET, z.handler, buffer, size)
      && Within(saveStates[i], z.save, buffer, size)
      && (SMM_PSD_OFFSET + z.psd <= SIZE_64KB ==> Within(smBases[i] + SMM_PSD_OFFSET, z.psd, buffer, size))
  }

  /** No two save states overlap, no handler overlaps a save state, and with the source's own offsets and the
      assertion of line 896 no handler overlaps a descriptor. */
  ghost predicate NoOverlaps(z: Sizes, smBases: seq<int>, saveStates: seq<int>)
    requires |smBases| == |saveStates| && z.Total() >= 2
  {
    && (forall i, j :: 0 <= i < |smBases| && 0 <= j < |smBases| && i != j ==>
      !Overlap(saveStates[i], z.save, saveStates[j], z.save))
    && (TileSize(z) <= SIZE_32KB ==> forall i, j :: 0 <= i < |smBases| && 0 <= j < |smBases| ==>
      !Overlap(smBases[i] + SMM_HANDLER_OFFSET, z.handler, saveStates[j], z.save))
    && (IsSourceSize(z) && IsGuarded(z, SMM_PSD_OFFSET, SMM_CPU_INTERVAL) ==>
      forall i, j :: 0 <= i < |smBases| && 0 <= j < |smBases| ==>
        !Overlap(smBases[i] + SMM_HANDLER_OFFSET, z.handler, smBases[j] + SMM_PSD_OFFSET, z.psd))
  }

  lemma TilesSpan(buffer: nat, z: Sizes, smBases: seq<int>, saveStates: seq<int>)
    requires |smBases| > 0 && z.Total() >= 2 && AreTiles(buffer, z, smBases, saveStates)
    ensures var size := SIZE_32KB + TileSize(z) * (|smBases| - 1);
      && Spans(buffer, size, z, smBases, saveStates)
      && (TileSize(z) <= SIZE_32KB ==> AllInside(buffer, size, z, smBases, saveStates))
  {
    hide TileSize, Within;
    forall i | 0 < i < |smBases| ensures smBases[i] - smBases[i - 1] == TileSize(z) {
      OneTileApart(buffer, z, i);
    }
    if TileSize(z) <= SIZE_32KB {
      forall i | 0 <= i < |smBases| {
        InsideBuffer(buffer, z, SMM_PSD_OFFSET, |smBases|, i);
      }
    }
  }

  lemma TilesMiss(buffer: nat, z: Sizes, smBases: seq<int>, saveStates: seq<int>)
    requires z.Total() >= 2 && AreTiles(buffer, z, smBases, saveStates)
    ensures NoOverlaps(z, smBases, saveStates)
  {
    hide Overlap, SmBase, TileSize, IsSourceSize, IsGuarded;
    forall i, j | 0 <= i < |smBases| && 0 <= j < |smBases| && i != j
      ensures !Overlap(saveStates[i], z.save, saveStates[j], z.save)
    {
      SaveStatesDisjoint(buffer, z, i, j);
    }
    if TileSize(z) <= SIZE_32KB {
      forall i, j | 0 <= i < |smBases| && 0 <= j < |smBases|
        ensures !Overlap(smBases[i] + SMM_HANDLER_OFFSET, z.handler, saveStates[j], z.save)
      {
        HandlersMissSaveStates(buffer, z, i, j);
      }
    }
    if IsSourceSize(z) && IsGuarded(z, SMM_PSD_OFFSET, SMM_CPU_INTERVAL) {
      forall i, j | 0 <= i < |smBases| && 0 <= j < |smBases|
        ensures !Overlap(smBases[i] + SMM_HANDLER_OFFSET, z.handler, smBases[j] + SMM_PSD_OFFSET, z.psd)
      {
        SourceSizesNeverOverlap(buffer, z, i, j);
      }
    }
  }

  /** Lines 937-965: the SMBASE and save state addresses of n processors, in a buffer of `size` bytes. */
  method LayOut(buffer: nat, n: nat, z: Sizes) returns (size: nat, smBases: array<int>, saveStates: array<int>)
    requires n > 0 && z.Total() >= 2
    ensures smBases.Length == saveStates.Length == n
    ensures Spans(buffer, size, z, smBases[..], saveStates[..])
    ensures NoOverlaps(z, smBases[..], saveStates[..])
    ensures TileSize(z) <= SIZE_32KB ==> AllInside(buffer, size, z, smBases[..], saveStates[..])
  {
    hide Spans, NoOverlaps, AllInside, TileSize, SmBase;
    var tileSize := TileSize(z);
    size := SIZE_32KB + tileSize * (n - 1);
    smBases, saveStates := new int[n], new int[n];
    for index := 0 to n
      invariant AreTiles(buffer, z, smBases[..index], saveStates[..index])
    {
      BaseIs(buffer, z, index);
      smBases[index] := buffer + index * tileSize - SIZE_32KB;
      saveStates[index] := smBases[index] + SIZE_64KB - z.save;
    }
    assert smBases[..n] == smBases[..] && saveStates[..n] == saveStates[..];
    TilesSpan(buffer, z, smBases[..], saveStates[..]);
    TilesMiss(buffer, z, smBases[..], saveStates[..]);
  }
}
