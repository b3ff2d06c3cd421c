/** The memoised scan is as good as asking for every machine, in whatever order the machines come. */
module ScanLaws {
  import opened Text
  import opened Pools
  import opened Runs
  import opened Scans

  // What a read list looks like.

  lemma {:induction false} ReadListKeys(infos: seq<DeviceInfo>, w: World, uuid: string)
    requires ReadList(infos, w, uuid).Some?
    ensures ReadList(infos, w, uuid).value.Keys == Models(infos)
  {
    if infos != [] {
      var before, n := infos[..|infos| - 1], |infos| - 1;
      ReadListKeys(before, w, uuid);
      assert Models(infos) == Models(before) + {infos[n].cdiModelName} by {
        assert forall i :: 0 <= i < n ==> before[i] == infos[i];
        assert infos[n].cdiModelName in Models(infos);
      }
    }
  }

  /** One device per info, a copy of it, with the count reported for its model. */
  lemma {:induction false} ReadListAt(infos: seq<DeviceInfo>, w: World, uuid: string, i: nat)
    requires ValidInfos(infos) && ReadList(infos, w, uuid).Some? && i < |infos|
    ensures infos[i].cdiModelName in ReadList(infos, w, uuid).value
    ensures Available(w, uuid, infos[i].cdiModelName).Some?
    ensures ReadList(infos, w, uuid).value[infos[i].cdiModelName]
         == NewDevice(infos[i], Available(w, uuid, infos[i].cdiModelName).value)
  {
    var n := |infos| - 1;
    var before := infos[..n];
    if i < n {
      ReadListAt(before, w, uuid, i);
      assert infos[i].cdiModelName != infos[n].cdiModelName;
    }
  }

  lemma {:induction false} ReadListFromInfos(infos: seq<DeviceInfo>, w: World, uuid: string)
    requires ValidInfos(infos) && ReadList(infos, w, uuid).Some?
    ensures FromInfos(infos, Records(ReadList(infos, w, uuid).value))
  {
    var list := Records(ReadList(infos, w, uuid).value);
    ReadListKeys(infos, w, uuid);
    forall i | 0 <= i < |infos|
      ensures infos[i].cdiModelName in list && FromInfo(infos[i], list[infos[i].cdiModelName])
    {
      ReadListAt(infos, w, uuid, i);
    }
  }

  // Answers that depend on the fabric and the node group only.

  ghost predicate SameCounts(infos: seq<DeviceInfo>, w: World, a: string, b: string) {
    forall i :: 0 <= i < |infos| ==> Available(w, a, infos[i].cdiModelName) == Available(w, b, infos[i].cdiModelName)
  }

  ghost predicate SameLimits(infos: seq<DeviceInfo>, w: World, a: string, b: string) {
    forall i :: 0 <= i < |infos| ==> LimitOf(w, a, infos[i].cdiModelName) == LimitOf(w, b, infos[i].cdiModelName)
  }

  /** Within the scan, availability depends on fabric and model only and limits on node group and model only, failures
      included. */
  ghost predicate Consistent(options: Options, infos: seq<DeviceInfo>, w: World, recs: seq<MachineRec>) {
    forall a, b :: a in recs && b in recs ==>
      && (a.fabricID == b.fabricID ==> SameCounts(infos, w, a.machineUUID, b.machineUUID))
      && (NeedsLimits(options, a) && a.nodeGroupUUID == b.nodeGroupUUID ==>
          SameLimits(infos, w, a.machineUUID, b.machineUUID))
  }

  lemma {:induction false} SameCountsSameList(infos: seq<DeviceInfo>, w: World, a: string, b: string)
    requires SameCounts(infos, w, a, b)
    ensures ReadList(infos, w, a) == ReadList(infos, w, b)
  {
    if infos != [] {
      var before := infos[..|infos| - 1];
      assert forall i :: 0 <= i < |before| ==> before[i] == infos[i];
      SameCountsSameList(before, w, a, b);
    }
  }

  lemma {:induction false} SameLimitsSameRead(infos: seq<DeviceInfo>, w: World, a: string, b: string)
    requires SameLimits(infos, w, a, b)
    ensures ReadLimits(w, a, Models(infos)) == ReadLimits(w, b, Models(infos))
  {
    forall m | m in Models(infos)
      ensures LimitOf(w, a, m) == LimitOf(w, b, m)
    {
    }
    if ReadLimits(w, a, Models(infos)).Some? {
      assert ReadLimits(w, a, Models(infos)).value == ReadLimits(w, b, Models(infos)).value;
    }
  }

  /** One machine of the scan: sharing its fabric's and its group's answers gives it what asking for it alone would. */
  lemma {:induction false} SharedIsAskedAlone(options: Options, infos: seq<DeviceInfo>, w: World,
                                              recs: seq<MachineRec>, rec: MachineRec)
    requires Consistent(options, infos, w, recs) && rec in recs && rec.fabricID.Some?
    ensures Shared(options, infos, w, recs, rec) == AskedAlone(options, infos, w, rec)
  {
    Listed(recs, rec);
    FabricRepListed(recs, rec.fabricID.value);
    SameCountsSameList(infos, w, FabricRep(recs, rec.fabricID.value).value.machineUUID, rec.machineUUID);
    if ReadList(infos, w, rec.machineUUID).Some? && NeedsLimits(options, rec) {
      ReadListKeys(infos, w, rec.machineUUID);
      GroupRepListed(recs, rec.nodeGroupUUID);
      SameLimitsSameRead(infos, w, GroupRep(recs, rec.nodeGroupUUID).value.machineUUID, rec.machineUUID);
    }
  }

  ghost predicate AllAnswered(options: Options, infos: seq<DeviceInfo>, w: World, recs: seq<MachineRec>) {
    forall rec :: rec in recs ==> AskedAlone(options, infos, w, rec).Some?
  }

  ghost predicate AsAskedAlone(options: Options, infos: seq<DeviceInfo>, w: World, recs: seq<MachineRec>,
                               views: seq<MachineView>) {
    && |views| == |recs|
    && forall i :: 0 <= i < |recs| ==>
         views[i].rec == recs[i] && AskedAlone(options, infos, w, recs[i]) == Some(views[i].devices)
  }

  /** Main result on scanning. If the managers answer per fabric and per node group, a scan succeeds exactly when asking
      for each machine would, and then gives every machine exactly those counts and limits. */
  lemma {:induction false} MemoisedScanRefinesAskingAlone(options: Options, infos: seq<DeviceInfo>, w: World,
                                                          recs: seq<MachineRec>)
    requires Consistent(options, infos, w, recs)
    requires forall i :: 0 <= i < |recs| ==> recs[i].fabricID.Some?
    ensures var views := ScanViews(options, infos, w, recs);
            && (views.Some? <==> AllAnswered(options, infos, w, recs))
            && (views.Some? ==> AsAskedAlone(options, infos, w, recs, views.value))
  {
    forall i | 0 <= i < |recs|
      ensures Shared(options, infos, w, recs, recs[i]) == AskedAlone(options, infos, w, recs[i])
    {
      SharedIsAskedAlone(options, infos, w, recs, recs[i]);
    }
  }

  /** The device a machine should have for an info: the count reported for the machine itself and, if it is in a node
      group and limits are asked for, its own limits. */
  function Expected(options: Options, w: World, rec: MachineRec, info: DeviceInfo): DeviceView
    requires Available(w, rec.machineUUID, info.cdiModelName).Some?
    requires NeedsLimits(options, rec) ==> LimitOf(w, rec.machineUUID, info.cdiModelName).Some?
  {
    var record := Device(info, Available(w, rec.machineUUID, info.cdiModelName).value);
    if NeedsLimits(options, rec) then
      var limit := LimitOf(w, rec.machineUUID, info.cdiModelName).value;
      DeviceView(record, limit.min, limit.max)
    else DeviceView(record, None, None)
  }

  lemma {:induction false} AskedAloneAt(options: Options, infos: seq<DeviceInfo>, w: World, rec: MachineRec, i: nat)
    requires ValidInfos(infos) && i < |infos| && AskedAlone(options, infos, w, rec).Some?
    ensures Available(w, rec.machineUUID, infos[i].cdiModelName).Some?
    ensures NeedsLimits(options, rec) ==> LimitOf(w, rec.machineUUID, infos[i].cdiModelName).Some?
    ensures infos[i].cdiModelName in AskedAlone(options, infos, w, rec).value
    ensures AskedAlone(options, infos, w, rec).value[infos[i].cdiModelName] == Expected(options, w, rec, infos[i])
  {
    ReadListAt(infos, w, rec.machineUUID, i);
  }

  /** Model by model: what each machine of a successful scan ends with. */
  lemma {:induction false} ScanGivesExpected(options: Options, infos: seq<DeviceInfo>, w: World, recs: seq<MachineRec>,
                                             views: seq<MachineView>, j: nat, i: nat)
    requires ValidInfos(infos) && Consistent(options, infos, w, recs)
    requires ScanViews(options, infos, w, recs) == Some(views) && j < |views| && i < |infos|
    ensures views[j].rec == recs[j] && infos[i].cdiModelName in views[j].devices
    ensures Available(w, recs[j].machineUUID, infos[i].cdiModelName).Some?
    ensures NeedsLimits(options, recs[j]) ==> LimitOf(w, recs[j].machineUUID, infos[i].cdiModelName).Some?
    ensures views[j].devices[infos[i].cdiModelName] == Expected(options, w, recs[j], infos[i])
  {
    assert Shared(options, infos, w, recs, recs[j]) == Some(views[j].devices);
    SharedIsAskedAlone(options, infos, w, recs, recs[j]);
    AskedAloneAt(options, infos, w, recs[j], i);
  }

  // The lists that reach the pools.

  lemma {:induction false} RecordsIgnoreLimits(list: ViewList, limits: map<string, Limit>)
    ensures Records(AddLimits(list, limits)) == Records(list)
  {
  }

  lemma {:induction false} SharedRecords(options: Options, infos: seq<DeviceInfo>, w: World, recs: seq<MachineRec>,
                                         rec: MachineRec)
    requires Shared(options, infos, w, recs, rec).Some?
    ensures rec.fabricID.Some? && FabricList(infos, w, recs, rec.fabricID.value).Some?
    ensures Records(Shared(options, infos, w, recs, rec).value) == Records(FabricList(infos, w, recs, rec.fabricID.value).value)
  {
    if NeedsLimits(options, rec) {
      RecordsIgnoreLimits(FabricList(infos, w, recs, rec.fabricID.value).value,
                          GroupLimits(infos, w, recs, rec.nodeGroupUUID).value);
    }
  }

  /** Lists taken from views that agree within each fabric. */
  lemma {:induction false} FirstListsAre(views: seq<MachineView>, recs: seq<MachineRec>, lists: map<int, DeviceList>)
    requires |views| == |recs|
    requires forall i :: 0 <= i < |views| ==>
               && views[i].rec == recs[i] && recs[i].fabricID.Some? && recs[i].fabricID.value in lists
               && Records(views[i].devices) == lists[recs[i].fabricID.value]
    ensures FirstLists(views).Keys == Fabrics(recs) <= lists.Keys
    ensures forall f :: f in FirstLists(views) ==> FirstLists(views)[f] == lists[f]
  {
    if views != [] {
      FirstListsAre(views[..|views| - 1], recs[..|recs| - 1], lists);
    }
  }

  /** Each fabric with the list read through its first machine. */
  function FabricLists(infos: seq<DeviceInfo>, w: World, recs: seq<MachineRec>): map<int, DeviceList> {
    map f | f in Fabrics(recs) && FabricList(infos, w, recs, f).Some? :: Records(FabricList(infos, w, recs, f).value)
  }

  /** A successful scan hands the pools exactly these lists, one for every fabric of a machine. */
  lemma {:induction false} ScanLists(options: Options, infos: seq<DeviceInfo>, w: World, recs: seq<MachineRec>)
    requires ScanViews(options, infos, w, recs).Some?
    ensures FirstLists(ScanViews(options, infos, w, recs).value) == FabricLists(infos, w, recs)
    ensures FabricLists(infos, w, recs).Keys == Fabrics(recs)
  {
    var views, lists := ScanViews(options, infos, w, recs).value, FabricLists(infos, w, recs);
    forall i | 0 <= i < |views|
      ensures views[i].rec == recs[i] && recs[i].fabricID.Some? && recs[i].fabricID.value in lists
      ensures Records(views[i].devices) == lists[recs[i].fabricID.value]
    {
      SharedRecords(options, infos, w, recs, recs[i]);
    }
    FirstListsAre(views, recs, lists);
  }

  lemma {:induction false} ScanListsValid(options: Options, infos: seq<DeviceInfo>, w: World, recs: seq<MachineRec>)
    requires ValidInfos(infos) && ScanViews(options, infos, w, recs).Some?
    ensures ValidLists(infos, FirstLists(ScanViews(options, infos, w, recs).value))
  {
    ScanLists(options, infos, w, recs);
    forall f | f in FabricLists(infos, w, recs)
      ensures FromInfos(infos, FabricLists(infos, w, recs)[f])
    {
      ReadListFromInfos(infos, w, FabricRep(recs, f).value.machineUUID);
    }
  }

  // Order independence.

  /** Two enumerations of the same machines, under answers that depend on fabric and group only: both succeed or both
      fail, every node gets the same devices, and the pools get the same lists. */
  lemma {:induction false} OrderIndependent(options: Options, infos: seq<DeviceInfo>, w: World,
                                            machines: map<string, MachineRec>, a: seq<MachineRec>, b: seq<MachineRec>)
    requires Enumerates(a, machines) && Enumerates(b, machines)
    requires forall n :: n in machines ==> machines[n].fabricID.Some?
    requires Consistent(options, infos, w, a)
    ensures var va, vb := ScanViews(options, infos, w, a), ScanViews(options, infos, w, b);
            && (va.Some? <==> vb.Some?)
            && (va.Some? ==> FirstLists(va.value) == FirstLists(vb.value) && SameViews(va.value, vb.value))
  {
    SameMachines(a, b, machines);
    MemoisedScanRefinesAskingAlone(options, infos, w, a);
    MemoisedScanRefinesAskingAlone(options, infos, w, b);
    if ScanViews(options, infos, w, a).Some? {
      SameFirstLists(options, infos, w, a, b);
      SameAnswers(options, infos, w, machines, a, ScanViews(options, infos, w, a).value, b, ScanViews(options, infos, w, b).value);
    }
  }

  lemma {:induction false} SameAnswers(options: Options, infos: seq<DeviceInfo>, w: World,
                                       machines: map<string, MachineRec>, a: seq<MachineRec>, va: seq<MachineView>,
                                       b: seq<MachineRec>, vb: seq<MachineView>)
    requires Enumerates(a, machines) && Enumerates(b, machines)
    requires AsAskedAlone(options, infos, w, a, va) && AsAskedAlone(options, infos, w, b, vb)
    ensures SameViews(va, vb)
  {
    forall i, j | 0 <= i < |va| && 0 <= j < |vb| && va[i].rec.nodeName == vb[j].rec.nodeName
      ensures va[i] == vb[j]
    {
      assert a[i] == machines[a[i].nodeName] == b[j];
    }
  }

  /** The two scans agree on every node. */
  ghost predicate SameViews(a: seq<MachineView>, b: seq<MachineView>) {
    forall i, j :: 0 <= i < |a| && 0 <= j < |b| && a[i].rec.nodeName == b[j].rec.nodeName ==> a[i] == b[j]
  }

  lemma {:induction false} SameMachines(a: seq<MachineRec>, b: seq<MachineRec>, machines: map<string, MachineRec>)
    requires Enumerates(a, machines) && Enumerates(b, machines)
    ensures forall r :: r in a <==> r in b
  {
    forall r | r in a || r in b
      ensures r in a && r in b
    {
      assert r.nodeName in machines && machines[r.nodeName] == r;
      var i :| 0 <= i < |a| && a[i].nodeName == r.nodeName;
      var j :| 0 <= j < |b| && b[j].nodeName == r.nodeName;
    }
  }

  lemma {:induction false} SameFirstLists(options: Options, infos: seq<DeviceInfo>, w: World, a: seq<MachineRec>,
                                          b: seq<MachineRec>)
    requires forall r :: r in a <==> r in b
    requires Consistent(options, infos, w, a)
    requires ScanViews(options, infos, w, a).Some? && ScanViews(options, infos, w, b).Some?
    ensures FirstLists(ScanViews(options, infos, w, a).value) == FirstLists(ScanViews(options, infos, w, b).value)
  {
    ScanLists(options, infos, w, a);
    ScanLists(options, infos, w, b);
    SameFabrics(a, b);
    SameFabrics(b, a);
    assert Fabrics(a) == Fabrics(b);
    forall f | f in Fabrics(a)
      ensures FabricList(infos, w, a, f) == FabricList(infos, w, b, f)
    {
      SameFabricList(options, infos, w, a, b, f);
    }
    ListsAgree(infos, w, a, b);
  }

  lemma {:induction false} ListsAgree(infos: seq<DeviceInfo>, w: World, a: seq<MachineRec>, b: seq<MachineRec>)
    requires Fabrics(a) == Fabrics(b)
    requires forall f :: f in Fabrics(a) ==> FabricList(infos, w, a, f) == FabricList(infos, w, b, f)
    ensures FabricLists(infos, w, a) == FabricLists(infos, w, b)
  {
  }

  lemma {:induction false} SameFabricList(options: Options, infos: seq<DeviceInfo>, w: World, a: seq<MachineRec>,
                                          b: seq<MachineRec>, f: int)
    requires forall r :: r in a <==> r in b
    requires Consistent(options, infos, w, a)
    requires f in Fabrics(a) && f in Fabrics(b)
    ensures FabricList(infos, w, a, f) == FabricList(infos, w, b, f)
  {
    FabricRepListed(a, f);
    FabricRepListed(b, f);
    SameCountsSameList(infos, w, FabricRep(a, f).value.machineUUID, FabricRep(b, f).value.machineUUID);
  }

  lemma {:induction false} SameFabrics(a: seq<MachineRec>, b: seq<MachineRec>)
    requires forall r :: r in a ==> r in b
    ensures Fabrics(a) <= Fabrics(b)
  {
    forall f | f in Fabrics(a)
      ensures f in Fabrics(b)
    {
      FabricRepListed(a, f);
      Listed(b, FabricRep(a, f).value);
    }
  }
}
