/** APIC IDs, processor numbers and package BSPs: IA32FamilyCpuPkg/CpuMpDxe/X2Apic.c. */
module ApicIds {
  import opened Arithmetic

  const TWO32: nat := 0x1_0000_0000

  /** One record of mExchangeInfo->BistBuffer. */
  datatype Record = Record(apicId: nat, bist: nat)

  /** CPU_SOCKET_ID_INFO */
  datatype SocketIdInfo = SocketIdInfo(defaultSocketId: nat, newSocketId: nat)

  ghost predicate Distinct(s: seq<nat>) { forall i, j :: 0 <= i < j < |s| ==> s[i] != s[j] }

  ghost predicate Ascending(s: seq<nat>) { forall i, j :: 0 <= i < j < |s| ==> s[i] <= s[j] }

  // ---- new APIC IDs ----

  /** The first entry of the configuration for a package, or the number of entries. */
  function EntryOf(config: seq<SocketIdInfo>, package: nat, k: nat): (i: nat)
    requires k <= |config|
    ensures k <= i <= |config| && (i < |config| ==> config[i].defaultSocketId == package)
    ensures forall j :: k <= j < i ==> config[j].defaultSocketId != package
    decreases |config| - k
  {
    if k == |config| || config[k].defaultSocketId == package then k else EntryOf(config, package, k + 1)
  }

  /** The package ID of an APIC ID (`width` is two to the number of thread and core bits) is reassigned. */
  predicate IsReassigned(config: seq<SocketIdInfo>, width: nat, apicId: nat)
    requires width > 0
  {
    var i := EntryOf(config, apicId / width, 0);
    i < |config| && config[i].defaultSocketId != config[i].newSocketId
  }

  /** The new APIC ID: the package field replaced by the new socket ID, within 32 bits. */
  function NewApicId(config: seq<SocketIdInfo>, width: nat, apicId: nat): nat
    requires width > 0
  {
    if IsReassigned(config, width, apicId)
    then (apicId % width + config[EntryOf(config, apicId / width, 0)].newSocketId * width) % TWO32
    else apicId
  }

  /** Entry k is the first of the configuration for the package. */
  ghost predicate IsEntry(config: seq<SocketIdInfo>, package: nat, k: nat) {
    && k < |config| && config[k].defaultSocketId == package
    && forall j :: 0 <= j < k ==> config[j].defaultSocketId != package
  }

  /** What the three arrays should say of an APIC ID: a package with an entry that changes it gets the new socket ID,
      the thread and core bits stay (while 32 bits hold the result); every other APIC ID stays as it is. */
  ghost predicate IsNewId(config: seq<SocketIdInfo>, width: nat, apicId: nat, id: nat, reassigned: bool,
                          socket: nat)
    requires width > 0
  {
    && (reassigned <==> exists k: nat :: IsEntry(config, apicId / width, k) && config[k].newSocketId != apicId / width)
    && (reassigned ==> exists k: nat :: IsEntry(config, apicId / width, k) && config[k].newSocketId == socket)
    && if !reassigned then id == apicId
       else if socket * width + apicId % width < 0x1_0000_0000 then id / width == socket && id % width == apicId % width
       else id == (socket * width + apicId % width) % 0x1_0000_0000
  }

  lemma NewIdIs(config: seq<SocketIdInfo>, width: nat, apicId: nat, socket: nat)
    requires width > 0
    requires IsReassigned(config, width, apicId) ==> socket == config[EntryOf(config, apicId / width, 0)].newSocketId
    ensures IsNewId(config, width, apicId, NewApicId(config, width, apicId), IsReassigned(config, width, apicId),
                    socket)
  {
    var k := EntryOf(config, apicId / width, 0);
    if k < |config| { assert IsEntry(config, apicId / width, k); }
    assert forall j: nat :: IsEntry(config, apicId / width, j) ==> j == k;
    if IsReassigned(config, width, apicId) && socket * width + apicId % width < TWO32 {
      var id := NewApicId(config, width, apicId);
      ModUnique(id, socket, apicId % width, width);
      assert (id / width - socket) * width == 0;
      MulAtLeast(id / width - socket, width);
    }
  }

  function NewApicIds(config: seq<SocketIdInfo>, width: nat, r: seq<Record>): (s: seq<nat>)
    requires width > 0
    ensures |s| == |r|
  {
    seq(|r|, (i: nat) requires i < |r| => NewApicId(config, width, r[i].apicId))
  }

  class CpuTable {
    const records: array<Record>
    const newApicId: array<nat>
    const socketIdAssigned: array<bool>
    const newSocketId: array<nat>
    var enableSocketIdReassignment: bool
    var enableX2Apic: bool
    var bspNumber: nat

    ghost predicate Valid() {
      && 0 < records.Length == newApicId.Length == socketIdAssigned.Length == newSocketId.Length
      && newApicId != newSocketId
    }

    /** Lines 199-216: the check for duplicate socket IDs.  Its test (line 209) never fires. */
    method CheckDuplicates(config: seq<SocketIdInfo>) returns (enable: bool)
      ensures enable
    {
      enable := true;
      for index1 := 0 to |config|
        invariant enable
      {
        var index2 := index1 + 1;
        while index2 < |config|
          invariant index1 < index2
        {
          if config[index1].defaultSocketId == config[index2].defaultSocketId
             || config[index1].newSocketId == config[index2].newSocketId {
            break;
          }
          index2 := index2 + 1;
        }
        if index2 < index1 {
          enable := false;
          break;
        }
      }
    }

    /** ConstructNewApicId on hardware that supports reassignment, with a configuration: reassignment stays
        enabled exactly when all new APIC IDs are different. */
    method ConstructNewApicId(config: seq<SocketIdInfo>, width: nat)
      requires Valid() && |config| > 0 && width > 0
      modifies this`enableSocketIdReassignment, newApicId, socketIdAssigned, newSocketId
      ensures enableSocketIdReassignment <==> Distinct(NewApicIds(config, width, records[..]))
      ensures enableSocketIdReassignment ==> newApicId[..] == NewApicIds(config, width, records[..])
      ensures enableSocketIdReassignment ==> forall i :: 0 <= i < records.Length ==>
        IsNewId(config, width, records[i].apicId, newApicId[i], socketIdAssigned[i], newSocketId[i])
    {
      hide IsNewId;
      var enable := CheckDuplicates(config);
      enableSocketIdReassignment := enable;
      ghost var ids := NewApicIds(config, width, records[..]);
      for index1 := 0 to records.Length
        invariant enableSocketIdReassignment && newApicId[..index1] == ids[..index1]
        invariant Distinct(ids[..index1])
        invariant forall i :: 0 <= i < index1 ==>
          IsNewId(config, width, records[i].apicId, newApicId[i], socketIdAssigned[i], newSocketId[i])
      {
        AssignNewApicId(config, width, index1);
        var unique := IsUnique(index1);
        assert newApicId[..index1 + 1] == ids[..index1 + 1];
        if !unique {
          ghost var j :| 0 <= j < index1 && newApicId[..index1][j] == newApicId[index1];
          assert ids[..index1 + 1][j] == ids[..index1 + 1][index1];
          enableSocketIdReassignment := false;
          return;
        }
      }
    }

    /** Lines 219-245 */
    method AssignNewApicId(config: seq<SocketIdInfo>, width: nat, index1: nat)
      requires Valid() && |config| > 0 && width > 0 && index1 < records.Length
      modifies newApicId, socketIdAssigned, newSocketId
      ensures newApicId[..] == old(newApicId[..])[index1 := NewApicId(config, width, records[index1].apicId)]
      ensures forall i :: 0 <= i < records.Length && i != index1 ==>
        socketIdAssigned[i] == old(socketIdAssigned[i]) && newSocketId[i] == old(newSocketId[i])
      ensures IsNewId(config, width, records[index1].apicId,
                      newApicId[index1], socketIdAssigned[index1], newSocketId[index1])
    {
      hide IsNewId;
      var apicId := records[index1].apicId;
      var package := apicId / width;
      var index2 := 0;
      while index2 < |config| && package != config[index2].defaultSocketId
        invariant 0 <= index2 <= |config| && EntryOf(config, package, 0) == EntryOf(config, package, index2)
      {
        index2 := index2 + 1;
      }
      if index2 < |config| && config[index2].defaultSocketId != config[index2].newSocketId {
        socketIdAssigned[index1] := true;
        newSocketId[index1] := config[index2].newSocketId;
        newApicId[index1] := (apicId % width + config[index2].newSocketId * width) % TWO32;
      } else {
        socketIdAssigned[index1] := false;
        newApicId[index1] := apicId;
      }
      NewIdIs(config, width, apicId, newSocketId[index1]);
    }

    /** Lines 250-257 */
    method IsUnique(index1: nat) returns (unique: bool)
      requires index1 < newApicId.Length
      ensures unique <==> newApicId[index1] !in newApicId[..index1]
    {
      for index2 := 0 to index1
        invariant forall j :: 0 <= j < index2 ==> newApicId[j] != newApicId[index1]
      {
        if newApicId[index1] == newApicId[index2] { return false; }
      }
      return true;
    }

    // ---- sorting ----

    /** The key by which the processors are sorted. */
    function Key(i: nat): nat
      reads this`enableSocketIdReassignment, records, newApicId
      requires Valid() && i < records.Length
    {
      if enableSocketIdReassignment then newApicId[i] else records[i].apicId
    }

    /** The four arrays side by side; the last three only matter with reassignment. */
    ghost function Rows(): (r: seq<Row>)
      reads records, newApicId, socketIdAssigned, newSocketId
      requires Valid()
      ensures |r| == records.Length
    {
      seq(records.Length, (i: nat)
        requires i < records.Length && Valid()
        reads records, newApicId, socketIdAssigned, newSocketId =>
        Row(records[i], newApicId[i], socketIdAssigned[i], newSocketId[i]))
    }

    /** Lines 298-304 and 309-315: the first position of the least key from index1 on. */
    method FindLeast(index1: nat) returns (index3: nat)
      requires Valid() && index1 < records.Length
      ensures index1 <= index3 < records.Length && forall j :: index1 <= j < records.Length ==> Key(index3) <= Key(j)
      ensures forall j :: index1 <= j < index3 ==> Key(index3) < Key(j)
    {
      index3 := index1;
      var apicId := Key(index1);
      for index2 := index1 + 1 to records.Length
        invariant index1 <= index3 < index2 && apicId == Key(index3)
        invariant forall j :: index1 <= j < index2 ==> apicId <= Key(j)
        invariant forall j :: index1 <= j < index3 ==> apicId < Key(j)
      {
        if apicId > Key(index2) {
          index3 := index2;
          apicId := Key(index2);
        }
      }
    }

    /** Lines 317-337: exchange two processors, in all the arrays that matter. */
    method Exchange(index1: nat, index3: nat)
      requires Valid() && index1 < index3 < records.Length
      modifies records, newApicId, socketIdAssigned, newSocketId
      ensures Exchanged(old(Rows()), Rows(), enableSocketIdReassignment, index1, index3)
    {
      var apicId := if enableSocketIdReassignment then newApicId[index3] else records[index3].apicId;
      if enableSocketIdReassignment {
        newApicId[index3] := newApicId[index1];
        newApicId[index1] := apicId;
        var moved := socketIdAssigned[index3];
        socketIdAssigned[index3] := socketIdAssigned[index1];
        socketIdAssigned[index1] := moved;
        var socketId := newSocketId[index3];
        newSocketId[index3] := newSocketId[index1];
        newSocketId[index1] := socketId;
        apicId := records[index3].apicId;
      }
      records[index3] := records[index3].(apicId := records[index1].apicId);
      records[index1] := records[index1].(apicId := apicId);
      var bist := records[index3].bist;
      records[index3] := records[index3].(bist := records[index1].bist);
      records[index1] := records[index1].(bist := bist);
    }

    /** Lines 293-337: one round of the selection sort. */
    method PlaceLeast(index1: nat, ghost was: seq<Row>, ghost perm: seq<nat>) returns (ghost perm': seq<nat>)
      requires Valid() && index1 < records.Length
      requires Applied(was, Rows(), perm, enableSocketIdReassignment)
        && SortedTo(Rows(), enableSocketIdReassignment, index1)
      modifies records, newApicId, socketIdAssigned, newSocketId
      ensures Applied(was, Rows(), perm', enableSocketIdReassignment)
        && SortedTo(Rows(), enableSocketIdReassignment, index1 + 1)
    {
      perm' := perm;
      ghost var rows := Rows();
      var index3 := FindLeast(index1);
      assert forall j :: index1 <= j < |rows| ==> rows[j].Key(enableSocketIdReassignment) == Key(j);
      if index3 != index1 {
        Exchange(index1, index3);
        AppliedSwap(was, rows, Rows(), perm, enableSocketIdReassignment, index1, index3);
        perm' := Swapped(perm, index1, index3);
      }
      SortedGrows(rows, Rows(), enableSocketIdReassignment, index1, index3);
    }

    /** Lines 292-338: selection sort.  One permutation, perm, is applied to all the arrays that matter. */
    method SortProcessors() returns (ghost perm: seq<nat>)
      requires Valid()
      modifies records, newApicId, socketIdAssigned, newSocketId
      ensures Applied(old(Rows()), Rows(), perm, enableSocketIdReassignment)
      ensures SortedTo(Rows(), enableSocketIdReassignment, records.Length)
    {
      ghost var was := Rows();
      perm := seq(records.Length, (i: nat) => i);
      for index1 := 0 to records.Length - 1
        invariant Applied(was, Rows(), perm, enableSocketIdReassignment)
        invariant SortedTo(Rows(), enableSocketIdReassignment, index1)
      {
        perm := PlaceLeast(index1, was, perm);
      }
    }

    /** Lines 344-349 */
    method FindBsp(initialApicId: nat)
      requires Valid()
      modifies this`bspNumber
      ensures if exists i :: 0 <= i < records.Length && records[i].apicId == initialApicId
              then bspNumber < records.Length && records[bspNumber].apicId == initialApicId
                && forall j :: 0 <= j < bspNumber ==> records[j].apicId != initialApicId
              else bspNumber == old(bspNumber)
    {
      for index1 := 0 to records.Length
        invariant bspNumber == old(bspNumber)
        invariant forall j :: 0 <= j < index1 ==> records[j].apicId != initialApicId
      {
        if records[index1].apicId == initialApicId {
          bspNumber := index1;
          return;
        }
      }
    }

    /** SortApicId.  `supported` tells whether the hardware supports reassignment and the user has asked for it.
        Without an AP it does nothing. */
    method SortApicId(supported: bool, config: seq<SocketIdInfo>, width: nat, initialApicId: nat)
      returns (ghost perm: seq<nat>)
      requires Valid() && width > 0 && !enableSocketIdReassignment
      modifies this, records, newApicId, socketIdAssigned, newSocketId
      ensures IsPermutation(perm, records.Length)
      ensures forall i :: 0 <= i < records.Length ==> records[i] == old(records[..])[perm[i]]
      ensures enableSocketIdReassignment <==>
        records.Length > 1 && supported && |config| > 0 && old(Distinct(NewApicIds(config, width, records[..])))
      ensures InOrder(config, width)
      ensures records.Length > 1 && (exists i :: 0 <= i < records.Length && records[i].apicId == initialApicId) ==>
        bspNumber < records.Length && records[bspNumber].apicId == initialApicId
      ensures records.Length == 1 ==> bspNumber == old(bspNumber)
    {
      if records.Length == 1 { return [0]; }
      PrepareKeys(supported, config, width);
      perm := SortRows(config, width);
      FindBsp(initialApicId);
    }

    /** The keys are in order; with reassignment they are the new IDs, which go with the records and are all
        different. */
    ghost predicate InOrder(config: seq<SocketIdInfo>, width: nat)
      requires Valid() && width > 0
      reads this`enableSocketIdReassignment, records, newApicId, socketIdAssigned, newSocketId
    {
      && SortedTo(Rows(), enableSocketIdReassignment, records.Length)
      && (enableSocketIdReassignment ==> Consistent(Rows(), config, width) && StrictlySorted(Rows(), true))
    }

    method SortRows(ghost config: seq<SocketIdInfo>, ghost width: nat) returns (ghost perm: seq<nat>)
      requires Valid() && width > 0
      requires enableSocketIdReassignment ==> Consistent(Rows(), config, width) && DifferentKeys(Rows(), true)
      modifies records, newApicId, socketIdAssigned, newSocketId
      ensures IsPermutation(perm, records.Length) && InOrder(config, width)
      ensures forall i :: 0 <= i < records.Length ==> records[i] == old(records[..])[perm[i]]
    {
      ghost var was := Rows();
      perm := SortProcessors();
      SortedRows(was, Rows(), perm, enableSocketIdReassignment, config, width);
      RowRecords(was, perm);
      assert forall i :: 0 <= i < records.Length ==> was[i].record == old(records[..])[i];
    }

    method PrepareKeys(supported: bool, config: seq<SocketIdInfo>, width: nat)
      requires Valid() && width > 0 && !enableSocketIdReassignment
      modifies this`enableSocketIdReassignment, newApicId, socketIdAssigned, newSocketId
      ensures enableSocketIdReassignment <==>
        supported && |config| > 0 && Distinct(NewApicIds(config, width, records[..]))
      ensures enableSocketIdReassignment ==> Consistent(Rows(), config, width) && DifferentKeys(Rows(), true)
    {
      if supported && |config| > 0 {
        ConstructNewApicId(config, width);
        ConstructedRows(config, width);
      }
    }

    /** Two processors share the low byte of their APIC IDs. */
    ghost predicate LegacyConflict()
      requires Valid()
      reads this`enableSocketIdReassignment, records, newApicId
    {
      exists i, j :: 0 <= i < j < records.Length && Key(i) % 256 == Key(j) % 256
    }

    /** Lines 430-446 and 451-467 */
    method FindLegacyConflict() returns (conflict: bool)
      requires Valid()
      ensures conflict <==> LegacyConflict()
    {
      for index1 := 0 to records.Length
        invariant forall i, j :: 0 <= i < index1 && i < j < records.Length ==> Key(i) % 256 != Key(j) % 256
      {
        var index2 := index1 + 1;
        while index2 < records.Length && Key(index1) % 256 != Key(index2) % 256
          invariant index1 < index2 <= records.Length
          invariant forall j :: index1 < j < index2 ==> Key(index1) % 256 != Key(j) % 256
        {
          index2 := index2 + 1;
        }
        if index2 < records.Length { return true; }
      }
      return false;
    }

    /** CheckApicId: x2APIC mode is forced, or the check fails, exactly when there are more than 255 processors or
        a conflict.  So when it succeeds with x2APIC off, the low bytes of the IDs in use tell the processors apart. */
    method CheckApicId(capable: bool, requested: bool) returns (supported: bool)
      requires Valid()
      modifies this`enableX2Apic
      ensures var on, bad := old(enableX2Apic) || (capable && requested), records.Length > 255 || LegacyConflict();
        && (supported <==> on || capable || !bad)
        && (enableX2Apic <==> on || (capable && bad))
      ensures supported && !enableX2Apic ==>
        records.Length <= 255 && forall i, j :: 0 <= i < j < records.Length ==> Key(i) % 256 != Key(j) % 256
    {
      if capable && requested { enableX2Apic := true; }
      if !enableX2Apic {
        var bad := records.Length > 255;
        if !bad { bad := FindLegacyConflict(); }
        if bad {
          if capable { enableX2Apic := true; } else { return false; }
        }
      }
      return true;
    }

    lemma ConstructedRows(config: seq<SocketIdInfo>, width: nat)
      requires Valid() && width > 0
      requires enableSocketIdReassignment ==> Distinct(NewApicIds(config, width, records[..]))
      requires enableSocketIdReassignment ==> newApicId[..] == NewApicIds(config, width, records[..])
      requires enableSocketIdReassignment ==> forall i :: 0 <= i < records.Length ==>
        IsNewId(config, width, records[i].apicId, newApicId[i], socketIdAssigned[i], newSocketId[i])
      ensures enableSocketIdReassignment ==> Consistent(Rows(), config, width) && DifferentKeys(Rows(), true)
    {
    }

    lemma RowRecords(was: seq<Row>, perm: seq<nat>)
      requires Valid() && |was| == records.Length && Applied(was, Rows(), perm, enableSocketIdReassignment)
      ensures forall i :: 0 <= i < records.Length ==> records[i] == was[perm[i]].record
    {
    }
  }

  // ---- package BSPs ----

  predicate StartsRun(package: seq<nat>, i: nat)
    requires i < |package|
  {
    i == 0 || package[i] != package[i - 1]
  }

  /** AssignPackageBsp marks the first processor of every run of equal packages: when the packages ascend, exactly
      one processor of each. */
  method AssignPackageBsp(package: seq<nat>, packageBsp: array<bool>)
    requires 0 < |package| == packageBsp.Length
    modifies packageBsp
    ensures forall i :: 0 <= i < |package| ==> packageBsp[i] == (old(packageBsp[..])[i] || StartsRun(package, i))
    ensures Ascending(package) && (forall i :: 0 <= i < |package| ==> !old(packageBsp[..])[i]) ==>
      forall i :: 0 <= i < |package| ==> (packageBsp[i] <==> package[i] !in package[..i])
  {
    ghost var was := packageBsp[..];
    packageBsp[0] := true;
    var packageId := package[0];
    for index := 1 to |package|
      invariant packageId == package[index - 1]
      invariant forall i :: 0 <= i < |package| ==> packageBsp[i] == (was[i] || (i < index && StartsRun(package, i)))
    {
      if packageId != package[index] {
        packageId := package[index];
        packageBsp[index] := true;
      }
    }
    if Ascending(package) {
      forall i | 0 <= i < |package| ensures StartsRun(package, i) <==> package[i] !in package[..i] {
        if i > 0 { assert package[i - 1] in package[..i]; }
      }
    }
  }

  /** With ascending APIC IDs whose upper part is the package, that is exactly one processor of each package: the
      one with the least APIC ID. */
  lemma OneBspPerPackage(ids: seq<nat>, package: seq<nat>, width: nat, i: nat)
    requires width > 0 && Ascending(ids) && i < |ids| == |package|
    requires forall k :: 0 <= k < |ids| ==> package[k] == ids[k] / width
    ensures StartsRun(package, i) <==> forall k :: 0 <= k < |ids| && k != i && package[k] == package[i] ==> i < k
    ensures forall k :: i <= k < |ids| ==> ids[i] <= ids[k]
  {
    forall k, l | 0 <= k < l < |ids| ensures package[k] <= package[l] {
      DivMonotone(ids[k], ids[l], width);
    }
  }

  /** Each row has the new APIC ID of its record. */
  ghost predicate Consistent(rows: seq<Row>, config: seq<SocketIdInfo>, width: nat)
    requires width > 0
  {
    forall i :: 0 <= i < |rows| ==>
      IsNewId(config, width, rows[i].record.apicId, rows[i].newApicId, rows[i].socketIdAssigned, rows[i].newSocketId)
  }

  ghost predicate DifferentKeys(rows: seq<Row>, reassign: bool) {
    forall i, j :: 0 <= i < j < |rows| ==> rows[i].Key(reassign) != rows[j].Key(reassign)
  }

  ghost predicate StrictlySorted(rows: seq<Row>, reassign: bool) {
    forall i, j :: 0 <= i < j < |rows| ==> rows[i].Key(reassign) < rows[j].Key(reassign)
  }

  /** Sorting keeps rows consistent, and different keys different, so that their order is strict. */
  lemma SortedRows(was: seq<Row>, now: seq<Row>, perm: seq<nat>, reassign: bool, config: seq<SocketIdInfo>, width: nat)
    requires Applied(was, now, perm, reassign) && SortedTo(now, reassign, |now|) && width > 0
    ensures reassign && Consistent(was, config, width) ==> Consistent(now, config, width)
    ensures DifferentKeys(was, reassign) ==> StrictlySorted(now, reassign)
  {
  }

  /** Where position k is filled from when i and j change places. */
  function Other(k: nat, i: nat, j: nat): nat { if k == i then j else if k == j then i else k }

  /** Rows i and j have changed places, all of them or only their records. */
  ghost predicate Exchanged(was: seq<Row>, now: seq<Row>, reassign: bool, i: nat, j: nat) {
    && |now| == |was| && i < |was| && j < |was|
    && forall k :: 0 <= k < |was| ==> now[k] == Moved(was, reassign, k, Other(k, i, j))
  }

  function Moved(was: seq<Row>, reassign: bool, k: nat, from: nat): Row
    requires k < |was| && from < |was|
  {
    if reassign then was[from] else was[k].(record := was[from].record)
  }

  ghost predicate IsPermutation(p: seq<nat>, n: nat) {
    |p| == n && (forall i :: 0 <= i < n ==> p[i] < n) && Distinct(p)
  }

  /** The rows (without reassignment, just the records) have been permuted by perm. */
  ghost predicate Applied(was: seq<Row>, now: seq<Row>, perm: seq<nat>, reassign: bool) {
    && |now| == |was| && IsPermutation(perm, |was|)
    && forall k :: 0 <= k < |was| ==> now[k] == Moved(was, reassign, k, perm[k])
  }

  /** The first k rows are in order, and before all the others. */
  ghost predicate SortedTo(rows: seq<Row>, reassign: bool, k: nat) {
    forall i, j :: 0 <= i < k && i < j < |rows| ==> rows[i].Key(reassign) <= rows[j].Key(reassign)
  }

  lemma AppliedSwap(was: seq<Row>, now: seq<Row>, next: seq<Row>, perm: seq<nat>, reassign: bool, i: nat, j: nat)
    requires Applied(was, now, perm, reassign) && i < j < |was| && Exchanged(now, next, reassign, i, j)
    ensures Applied(was, next, Swapped(perm, i, j), reassign)
  {
  }

  lemma SortedGrows(now: seq<Row>, next: seq<Row>, reassign: bool, i: nat, j: nat)
    requires SortedTo(now, reassign, i) && i <= j < |now| && Exchanged(now, next, reassign, i, j)
    requires forall k :: i <= k < |now| ==> now[j].Key(reassign) <= now[k].Key(reassign)
    ensures SortedTo(next, reassign, i + 1)
  {
  }

  /** What the four arrays say of one processor. */
  datatype Row = Row(record: Record, newApicId: nat, socketIdAssigned: bool, newSocketId: nat)
  {
    function Key(reassign: bool): nat { if reassign then newApicId else record.apicId }
  }

  function Swapped<T>(s: seq<T>, i: nat, j: nat): (r: seq<T>)
    requires i < |s| && j < |s|
    ensures |r| == |s|
  {
    s[i := s[j]][j := s[i]]
  }
}
