/** What a whole run means for the scheduler: every published pool is well formed, and it selects exactly the
    nodes of its fabric that carry its device's label. */
module EndToEnd {
  import opened Text
  import opened Naming
  import opened Pools
  import opened Runs
  import opened Providers
  import opened Scans
  import opened ScanLaws
  import opened NodeLabels
  import opened Lifecycle

  // Pools are well formed.

  /** No scan of the run read more than the maximum for any model. */
  ghost predicate Bounded(trace: seq<Event>) {
    forall i, f, m :: 0 <= i < |trace| && trace[i].Scanned? && f in trace[i].lists && m in trace[i].lists[f] ==>
      trace[i].lists[f][m].available <= MAX_RESERVED
  }

  lemma {:induction false} ReadListBounded(infos: seq<DeviceInfo>, w: World, uuid: string, m: string)
    requires ReadList(infos, w, uuid).Some? && m in ReadList(infos, w, uuid).value
    ensures ReadList(infos, w, uuid).value[m].record.available <= MAX_RESERVED
  {
    var last := infos[|infos| - 1].cdiModelName;
    if m != last {
      ReadListBounded(infos[..|infos| - 1], w, uuid, m);
    }
  }

  lemma {:induction false} ScanBounded(options: Options, infos: seq<DeviceInfo>, w: World, recs: seq<MachineRec>,
                                       f: int, m: string)
    requires ScanViews(options, infos, w, recs).Some?
    requires var lists := FirstLists(ScanViews(options, infos, w, recs).value); f in lists && m in lists[f]
    ensures FirstLists(ScanViews(options, infos, w, recs).value)[f][m].available <= MAX_RESERVED
  {
    ScanLists(options, infos, w, recs);
    ReadListBounded(infos, w, FabricRep(recs, f).value.machineUUID, m);
  }

  lemma {:induction false} RunIsBounded(options: Options, infos: seq<DeviceInfo>, worlds: seq<World>,
                                        orders: seq<seq<MachineRec>>, trace: seq<Event>)
    requires RunOf(options, infos, worlds, orders, trace)
    ensures Bounded(trace)
  {
    forall i, f, m | 0 <= i < |trace| && trace[i].Scanned? && f in trace[i].lists && m in trace[i].lists[f]
      ensures trace[i].lists[f][m].available <= MAX_RESERVED
    {
      assert ScanOf(options, infos, worlds[i], orders[i], trace[i]);
      ScanBounded(options, infos, worlds[i], orders[i], f, m);
    }
  }

  lemma {:induction false} ObservedIsBounded(trace: seq<Event>, model: string, f: int)
    requires Bounded(trace)
    ensures forall k :: 0 <= k < |Observed(trace, model, f)| ==> Observed(trace, model, f)[k] <= MAX_RESERVED
  {
    if trace != [] {
      var before := trace[..|trace| - 1];
      assert forall i :: 0 <= i < |before| ==> before[i] == trace[i];
      ObservedIsBounded(before, model, f);
    }
  }

  /** One slice of at most 128 devices with distinct names that are all DNS labels. */
  ghost predicate WellFormed(pool: Pool) {
    && |pool.slices| == 1 && |pool.slices[0].devices| <= 128
    && forall i, j :: 0 <= i < |pool.slices[0].devices| && 0 <= j < |pool.slices[0].devices| ==>
         && IsDNSLabel(pool.slices[0].devices[i].name)
         && (pool.slices[0].devices[i].name == pool.slices[0].devices[j].name ==> i == j)
  }

  lemma GeneratedIsWellFormed(prefix: string, device: DeviceRecord, f: int, generation: int)
    requires IsDNSLabel(device.k8sDeviceName) && |device.k8sDeviceName| <= 50 && device.available <= 128
    ensures WellFormed(PoolOf(prefix, device, f, generation))
  {
    var k, devices := device.k8sDeviceName, PublishedDevices(device);
    forall i, j | 0 <= i < |devices| && 0 <= j < |devices|
      ensures IsDNSLabel(devices[i].name) && (devices[i].name == devices[j].name ==> i == j)
    {
      DeviceNameIsDNSLabel(k, i);
      DeviceNameParses(DeviceName(k, i), k, i);
      DeviceNameParses(DeviceName(k, i), k, j);
    }
  }

  /** Names as the validator accepts them. */
  ghost predicate ValidNames(infos: seq<DeviceInfo>) {
    forall i :: 0 <= i < |infos| ==> IsDNSLabel(infos[i].k8sDeviceName) && |infos[i].k8sDeviceName| <= 50
  }

  lemma {:induction false} BoundedIsWellFormed(prefix: string, infos: seq<DeviceInfo>, trace: seq<Event>, d: string,
                                               p: string)
    requires ValidInfos(infos) && ValidNames(infos) && ValidTrace(infos, trace) && Bounded(trace)
    requires d in Drivers(infos) && p in Run(prefix, infos, trace)[d]
    ensures WellFormed(Run(prefix, infos, trace)[d][p])
  {
    var i, f := OnlyConfiguredPools(prefix, infos, trace, d, p);
    PoolHistory(prefix, infos, trace, i, f);
    ObservedIsBounded(trace, infos[i].cdiModelName, f);
    HistoryIsWellFormed(prefix, Run(prefix, infos, trace)[d], infos[i], f, Observed(trace, infos[i].cdiModelName, f));
  }

  lemma {:induction false} HistoryIsWellFormed(prefix: string, pools: Pools, info: DeviceInfo, f: int, h: seq<int>)
    requires IsDNSLabel(info.k8sDeviceName) && |info.k8sDeviceName| <= 50
    requires h != [] && h[|h| - 1] <= MAX_RESERVED && PoolMatches(prefix, pools, info, f, h)
    ensures WellFormed(pools[PoolName(info.k8sDeviceName, f)])
  {
    GeneratedIsWellFormed(prefix, Device(info, h[|h| - 1]), f, 1 + Bumps(h));
  }

  /** Every pool of every run is well formed. */
  lemma {:induction false} EveryPoolIsWellFormed(prefix: string, options: Options, infos: seq<DeviceInfo>,
                                                 worlds: seq<World>, orders: seq<seq<MachineRec>>, trace: seq<Event>,
                                                 d: string, p: string)
    requires ValidInfos(infos) && ValidNames(infos) && ValidTrace(infos, trace)
    requires RunOf(options, infos, worlds, orders, trace)
    requires d in Drivers(infos) && p in Run(prefix, infos, trace)[d]
    ensures WellFormed(Run(prefix, infos, trace)[d][p])
  {
    RunIsBounded(options, infos, worlds, orders, trace);
    BoundedIsWellFormed(prefix, infos, trace, d, p);
  }

  /** What every device of an info's pools says, in every run: its index in its name, the info's attributes, and the
      conditions under which it binds. */
  lemma {:induction false} EveryDeviceDescribesItsInfo(prefix: string, infos: seq<DeviceInfo>, trace: seq<Event>, i: nat,
                                                       f: int, k: nat)
    requires ValidInfos(infos) && ValidTrace(infos, trace) && i < |infos|
    requires PoolName(infos[i].k8sDeviceName, f) in Run(prefix, infos, trace)[infos[i].driverName]
    requires var pool := Run(prefix, infos, trace)[infos[i].driverName][PoolName(infos[i].k8sDeviceName, f)];
             |pool.slices| == 1 && k < |pool.slices[0].devices|
    ensures var device := Run(prefix, infos, trace)[infos[i].driverName][PoolName(infos[i].k8sDeviceName, f)].slices[0].devices[k];
            && ParseDeviceName(device.name) == Some((infos[i].k8sDeviceName, k))
            && device.name == infos[i].k8sDeviceName + "-" + Itoa(k)
            && device.attributes == infos[i].draAttributes && device.bindsToNode
            && device.bindingConditions == ["FabricDeviceReady"]
            && device.bindingFailureConditions == ["FabricDeviceReschedule", "FabricDeviceFailed"]
  {
    PoolHistory(prefix, infos, trace, i, f);
    DeviceNameParses(DeviceName(infos[i].k8sDeviceName, k), infos[i].k8sDeviceName, k);
  }

  // What was reported is what is published.

  /** The managers answer for this machine and model as far as the scan needs them to. */
  predicate Answered(options: Options, w: World, rec: MachineRec, model: string) {
    && (rec.machineUUID, model) in w.reserved && w.reserved[(rec.machineUUID, model)] <= 128
    && (options.useCM && rec.nodeGroupUUID != "" ==> (rec.machineUUID, model) in w.details)
  }

  ghost predicate AllAnsweredFor(options: Options, infos: seq<DeviceInfo>, w: World, recs: seq<MachineRec>) {
    forall j, i :: 0 <= j < |recs| && 0 <= i < |infos| ==> Answered(options, w, recs[j], infos[i].cdiModelName)
  }

  lemma {:induction false} ReadListIff(infos: seq<DeviceInfo>, w: World, uuid: string)
    ensures ReadList(infos, w, uuid).Some? <==>
            forall i :: 0 <= i < |infos| ==> Available(w, uuid, infos[i].cdiModelName).Some?
  {
    if infos != [] {
      var before := infos[..|infos| - 1];
      ReadListIff(before, w, uuid);
      assert forall i :: 0 <= i < |before| ==> before[i] == infos[i];
    }
  }

  lemma {:induction false} AskedAloneIff(options: Options, infos: seq<DeviceInfo>, w: World, rec: MachineRec)
    ensures AskedAlone(options, infos, w, rec).Some? <==>
            forall i :: 0 <= i < |infos| ==> Answered(options, w, rec, infos[i].cdiModelName)
  {
    ReadListIff(infos, w, rec.machineUUID);
    if ReadList(infos, w, rec.machineUUID).Some? {
      ReadListKeys(infos, w, rec.machineUUID);
      assert forall m :: m in Models(infos) ==> exists i :: 0 <= i < |infos| && infos[i].cdiModelName == m;
      assert forall i :: 0 <= i < |infos| ==> infos[i].cdiModelName in Models(infos);
    }
  }

  /** When the reading of devices succeeds: exactly if every processed machine's count is there for every model and is
      at most 128, and its node details are there if it is in a node group and limits are asked for. */
  lemma {:induction false} ScanSucceedsIff(options: Options, infos: seq<DeviceInfo>, w: World, recs: seq<MachineRec>)
    requires Consistent(options, infos, w, recs)
    requires forall j :: 0 <= j < |recs| ==> recs[j].fabricID.Some?
    ensures ScanViews(options, infos, w, recs).Some? <==>
            AllAnsweredFor(options, infos, w, recs)
  {
    MemoisedScanRefinesAskingAlone(options, infos, w, recs);
    forall j | 0 <= j < |recs|
      ensures AskedAlone(options, infos, w, recs[j]).Some? <==>
              forall i :: 0 <= i < |infos| ==> Answered(options, w, recs[j], infos[i].cdiModelName)
    {
      AskedAloneIff(options, infos, w, recs[j]);
    }
    assert AllAnswered(options, infos, w, recs) <==>
           forall j :: 0 <= j < |recs| ==> AskedAlone(options, infos, w, recs[j]).Some?;
  }

  /** When a scan of a consistent world ends with a reading error, on what it reads. */
  lemma {:induction false} ReadFailsIff(options: Options, infos: seq<DeviceInfo>, w: World, recs: seq<MachineRec>, e: Event)
    requires ConsistentWorld(options, infos, w) && ScanOf(options, infos, w, recs, e)
    ensures var uuids := MachineUUIDs(options.useCapiBmh, w.nodes, w.hosts);
            e == ReadFailed <==>
            || uuids.None? || w.machineList.None? || GroupsUnread(options, w)
            || (forall n :: !HasFabric(uuids.value, w.machineList.value, n))
            || !AllAnsweredFor(options, infos, w, recs)
  {
    NoMachinesIff(options, w);
    if Machines(options, w).Some? {
      MachinesHaveFabrics(options, w);
      assert forall j :: 0 <= j < |recs| ==> recs[j].fabricID.Some?;
      ScanSucceedsIff(options, infos, w, recs);
    }
  }

  /** The device is made of the info, the count reported for the machine itself, and the limits in that machine's own
      node details; without a node group it has no limits. */
  ghost predicate AsReported(options: Options, w: World, rec: MachineRec, info: DeviceInfo, device: DeviceView) {
    var key := (rec.machineUUID, info.cdiModelName);
    && key in w.reserved && device.record.available == w.reserved[key]
    && device.record.k8sDeviceName == info.k8sDeviceName && device.record.driverName == info.driverName
    && device.record.draAttributes == info.draAttributes
    && if options.useCM && rec.nodeGroupUUID != ""
       then IsLimit(w, rec.machineUUID, info.cdiModelName, Limit(device.min, device.max))
       else device.min.None? && device.max.None?
  }

  lemma {:induction false} ScanGivesReported(options: Options, infos: seq<DeviceInfo>, w: World, recs: seq<MachineRec>,
                                             views: seq<MachineView>, j: nat, i: nat)
    requires ValidInfos(infos) && Consistent(options, infos, w, recs)
    requires ScanViews(options, infos, w, recs) == Some(views) && j < |views| && i < |infos|
    ensures views[j].rec == recs[j] && infos[i].cdiModelName in views[j].devices
    ensures AsReported(options, w, recs[j], infos[i], views[j].devices[infos[i].cdiModelName])
  {
    ScanGivesExpected(options, infos, w, recs, views, j, i);
    LimitOfDetails(w, recs[j].machineUUID, infos[i].cdiModelName);
  }

  /** In any world, consistent or not, the count that reaches the pools of a fabric is the one reported for its first
      machine. */
  lemma {:induction false} FirstMachineCounts(options: Options, infos: seq<DeviceInfo>, w: World, recs: seq<MachineRec>,
                                              views: seq<MachineView>, j: nat, i: nat, f: int)
    requires ValidInfos(infos) && ScanViews(options, infos, w, recs) == Some(views) && j < |recs| && i < |infos|
    requires recs[j].fabricID == Some(f) && forall k :: 0 <= k < j ==> recs[k].fabricID != Some(f)
    ensures (recs[j].machineUUID, infos[i].cdiModelName) in w.reserved
    ensures var lists, model := FirstLists(views), infos[i].cdiModelName;
            f in lists && model in lists[f] && lists[f][model].available == w.reserved[(recs[j].machineUUID, model)]
  {
    ScanLists(options, infos, w, recs);
    FabricRepIsFirst(recs, f, j);
    assert Shared(options, infos, w, recs, recs[j]) == Some(views[j].devices);
    SharedRecords(options, infos, w, recs, recs[j]);
    ReadListAt(infos, w, recs[j].machineUUID, i);
    Scans.Listed(recs, recs[j]);
  }

  /** The count that reaches the pools of a fabric is the one reported for any of its machines. */
  lemma {:induction false} ListsHoldWhatIsReserved(options: Options, infos: seq<DeviceInfo>, w: World,
                                                   recs: seq<MachineRec>, views: seq<MachineView>, j: nat, i: nat)
    requires ValidInfos(infos) && Consistent(options, infos, w, recs)
    requires ScanViews(options, infos, w, recs) == Some(views) && j < |recs| && i < |infos|
    ensures (recs[j].machineUUID, infos[i].cdiModelName) in w.reserved && recs[j].fabricID.Some?
    ensures var lists, f, model := FirstLists(views), recs[j].fabricID.value, infos[i].cdiModelName;
            f in lists && model in lists[f] && lists[f][model].available == w.reserved[(recs[j].machineUUID, model)]
  {
    assert Shared(options, infos, w, recs, recs[j]) == Some(views[j].devices);
    ScanGivesReported(options, infos, w, recs, views, j, i);
    ScanLists(options, infos, w, recs);
    SharedRecords(options, infos, w, recs, recs[j]);
    Scans.Listed(recs, recs[j]);
    var model := infos[i].cdiModelName;
    assert Records(views[j].devices)[model] == views[j].devices[model].record;
  }

  lemma {:induction false} LastCountIsPublished(prefix: string, infos: seq<DeviceInfo>, trace: seq<Event>,
                                                lists: map<int, DeviceList>, i: nat, f: int)
    requires ValidInfos(infos) && ValidTrace(infos, trace) && ValidLists(infos, lists) && i < |infos|
    requires f in lists && infos[i].cdiModelName in lists[f]
    ensures var pools := Run(prefix, infos, trace + [Scanned(lists)])[infos[i].driverName];
            var p, n := PoolName(infos[i].k8sDeviceName, f), lists[f][infos[i].cdiModelName].available;
            && p in pools && |pools[p].slices| == 1
            && |pools[p].slices[0].devices| == if n < 0 then 0 else n
  {
    var all, model := trace + [Scanned(lists)], infos[i].cdiModelName;
    RunAfter(prefix, infos, trace, Scanned(lists));
    assert all[..|all| - 1] == trace && all[|all| - 1] == Scanned(lists);
    assert Observed(all, model, f) == Observed(trace, model, f) + [lists[f][model].available];
    PoolHistory(prefix, infos, all, i, f);
  }

  /** Main result on counts. After a successful scan of a consistent world, at any point of any run, the pool of a device
      info and a fabric holds exactly as many devices as the fabric manager reports for any machine of that fabric; none
      if it reports a negative number. */
  lemma {:induction false} PoolsHoldWhatIsReserved(prefix: string, options: Options, infos: seq<DeviceInfo>,
                                                   trace: seq<Event>, w: World, recs: seq<MachineRec>,
                                                   views: seq<MachineView>, j: nat, i: nat)
    requires ValidInfos(infos) && ValidTrace(infos, trace) && Consistent(options, infos, w, recs)
    requires ScanViews(options, infos, w, recs) == Some(views) && j < |recs| && i < |infos|
    ensures (recs[j].machineUUID, infos[i].cdiModelName) in w.reserved && recs[j].fabricID.Some?
    ensures var pools := Run(prefix, infos, trace + [Scanned(FirstLists(views))])[infos[i].driverName];
            var p := PoolName(infos[i].k8sDeviceName, recs[j].fabricID.value);
            var n := w.reserved[(recs[j].machineUUID, infos[i].cdiModelName)];
            && p in pools && |pools[p].slices| == 1
            && |pools[p].slices[0].devices| == if n < 0 then 0 else n
  {
    ScanListsValid(options, infos, w, recs);
    ListsHoldWhatIsReserved(options, infos, w, recs, views, j, i);
    LastCountIsPublished(prefix, infos, trace, FirstLists(views), i, recs[j].fabricID.value);
  }

  // Pools select the right nodes.

  /** The configuration gives a device a name whose label the driver itself overwrites. */
  ghost predicate TakenName(useCM: bool, infos: seq<DeviceInfo>, k: string) {
    || k == "fabric"
    || (useCM && exists i :: 0 <= i < |infos| && IsLimitName(k, infos[i].k8sDeviceName))
  }

  lemma {:induction false} TakenIsOverwritten(options: Options, infos: seq<DeviceInfo>, w: World,
                                              recs: seq<MachineRec>, rec: MachineRec, k: string)
    requires ValidInfos(infos) && Shared(options, infos, w, recs, rec).Some?
    ensures Overwritten(options.useCM, Shared(options, infos, w, recs, rec).value, k)
            <==> TakenName(options.useCM, infos, k)
  {
    SharedRecords(options, infos, w, recs, rec);
    ReadListFromInfos(infos, w, FabricRep(recs, rec.fabricID.value).value.machineUUID);
    TakenFromInfos(options.useCM, infos, Shared(options, infos, w, recs, rec).value, k);
  }

  lemma {:induction false} TakenFromInfos(useCM: bool, infos: seq<DeviceInfo>, devices: ViewList, k: string)
    requires FromInfos(infos, Records(devices))
    ensures Overwritten(useCM, devices, k) <==> TakenName(useCM, infos, k)
  {
    if m :| m in devices && IsLimitName(k, devices[m].record.k8sDeviceName) {
      assert m in Records(devices) && Records(devices)[m] == devices[m].record;
      var i :| 0 <= i < |infos| && infos[i].cdiModelName == m;
      assert FromInfo(infos[i], devices[m].record);
    }
    if i :| 0 <= i < |infos| && IsLimitName(k, infos[i].k8sDeviceName) {
      assert FromInfo(infos[i], Records(devices)[infos[i].cdiModelName]);
      assert devices[infos[i].cdiModelName].record.k8sDeviceName == infos[i].k8sDeviceName;
    }
  }

  /** Main result end to end. Whatever run produced the pools, and however far a scan got with labelling: the pool of a
      device and a fabric selects a labelled node if and only if the node carried the device's label with value "true",
      its machine is in that fabric, and the configuration does not give the device a name the driver writes itself. */
  lemma {:induction false} PoolSelectsItsFabric(prefix: string, options: Options, infos: seq<DeviceInfo>,
                                                trace: seq<Event>, i: nat, f: int, w: World, recs: seq<MachineRec>,
                                                views: seq<MachineView>, before: map<string, Labels>,
                                                nodes: map<string, Labels>, done: nat, ok: bool, j: nat)
    requires ValidInfos(infos) && ValidTrace(infos, trace) && i < |infos|
    requires PoolName(infos[i].k8sDeviceName, f) in Run(prefix, infos, trace)[infos[i].driverName]
    requires ScanViews(options, infos, w, recs) == Some(views)
    requires LabelPass(prefix, options.useCM, w, views, before, nodes, done, ok)
    requires j < done && views[j].rec.nodeName in w.labelNodes
    ensures var k, n := infos[i].k8sDeviceName, views[j].rec.nodeName;
            && n in nodes
            && (SelectorMatches(Run(prefix, infos, trace)[infos[i].driverName][PoolName(k, f)].selector, nodes[n])
                <==> && prefix + "/" + k in w.labelNodes[n] && w.labelNodes[n][prefix + "/" + k] == "true"
                     && views[j].rec.fabricID == Some(f) && !TakenName(options.useCM, infos, k))
  {
    var k, n, rec := infos[i].k8sDeviceName, views[j].rec.nodeName, views[j].rec;
    PoolHistory(prefix, infos, trace, i, f);
    assert rec == recs[j] && Shared(options, infos, w, recs, rec) == Some(views[j].devices);
    TakenIsOverwritten(options, infos, w, recs, rec, k);
    assert NodeLabelled(prefix, options.useCM, w, views[j], nodes);
    assert rec.fabricID.Some?;
    SelectorAgrees(prefix, options.useCM, rec.fabricID.value, views[j].devices, w.labelNodes[n], nodes[n], k, f);
  }

  // What a labelled node shows.

  /** The fabric label is the number of the machine's fabric, with or without the cluster manager. */
  lemma {:induction false} NodeShowsItsFabric(prefix: string, options: Options, infos: seq<DeviceInfo>, w: World,
                                              recs: seq<MachineRec>, views: seq<MachineView>,
                                              before: map<string, Labels>, nodes: map<string, Labels>, done: nat, ok: bool,
                                              j: nat)
    requires ScanViews(options, infos, w, recs) == Some(views)
    requires LabelPass(prefix, options.useCM, w, views, before, nodes, done, ok)
    requires j < done && recs[j].nodeName in w.labelNodes
    ensures recs[j].nodeName in nodes && recs[j].fabricID.Some?
    ensures var key := prefix + "/" + "fabric";
            key in nodes[recs[j].nodeName] && nodes[recs[j].nodeName][key] == Itoa(recs[j].fabricID.value)
  {
    assert Shared(options, infos, w, recs, recs[j]) == Some(views[j].devices);
    assert NodeLabelled(prefix, options.useCM, w, views[j], nodes);
  }

  /** The key is the fabric's, or one of the limits' of a configured device when the cluster manager is used. */
  ghost predicate DriverKey(prefix: string, useCM: bool, infos: seq<DeviceInfo>, key: string) {
    || key == prefix + "/" + "fabric"
    || (useCM && exists i :: 0 <= i < |infos| && (|| key == prefix + "/" + infos[i].k8sDeviceName + "-size-max"
                                                  || key == prefix + "/" + infos[i].k8sDeviceName + "-size-min"))
  }

  /** Every other label is as it was, and no other label is added. */
  lemma {:induction false} NodeKeepsOtherLabels(prefix: string, options: Options, infos: seq<DeviceInfo>, w: World,
                                                recs: seq<MachineRec>, views: seq<MachineView>,
                                                before: map<string, Labels>, nodes: map<string, Labels>, done: nat,
                                                ok: bool, j: nat, key: string)
    requires ValidInfos(infos) && ScanViews(options, infos, w, recs) == Some(views)
    requires LabelPass(prefix, options.useCM, w, views, before, nodes, done, ok)
    requires j < done && recs[j].nodeName in w.labelNodes && !DriverKey(prefix, options.useCM, infos, key)
    ensures var n := recs[j].nodeName;
            && n in nodes && (key in nodes[n] <==> key in w.labelNodes[n])
            && (key in nodes[n] ==> nodes[n][key] == w.labelNodes[n][key])
  {
    var rec := recs[j];
    assert Shared(options, infos, w, recs, rec) == Some(views[j].devices);
    SharedRecords(options, infos, w, recs, rec);
    ReadListFromInfos(infos, w, FabricRep(recs, rec.fabricID.value).value.machineUUID);
    if key in WrittenKeys(prefix, options.useCM, rec.fabricID, views[j].devices) {
      WrittenAreDriverKeys(prefix, options.useCM, infos, rec.fabricID, views[j].devices, key);
    }
    assert NodeLabelled(prefix, options.useCM, w, views[j], nodes);
  }

  lemma WrittenAreDriverKeys(prefix: string, useCM: bool, infos: seq<DeviceInfo>, fabricID: Option<int>,
                             devices: ViewList, key: string)
    requires FromInfos(infos, Records(devices)) && key in WrittenKeys(prefix, useCM, fabricID, devices)
    ensures DriverKey(prefix, useCM, infos, key)
  {
    if key != FabricKey(prefix) {
      var m :| m in devices && (|| key == MaxKey(prefix, devices[m].record.k8sDeviceName)
                                || key == MinKey(prefix, devices[m].record.k8sDeviceName));
      assert m in Records(devices) && Records(devices)[m] == devices[m].record;
      var i :| 0 <= i < |infos| && infos[i].cdiModelName == m;
      assert FromInfo(infos[i], devices[m].record);
    }
  }

  /** A labelled node shows its own machine's fabric and, for every device info, the limits the cluster manager has for
      that machine: "0" where it has none, and everywhere if the machine is in no node group. */
  lemma {:induction false} NodeShowsItsLimits(prefix: string, options: Options, infos: seq<DeviceInfo>, w: World,
                                              recs: seq<MachineRec>, views: seq<MachineView>,
                                              before: map<string, Labels>, nodes: map<string, Labels>, done: nat, ok: bool,
                                              j: nat, i: nat)
    requires ValidInfos(infos) && i < |infos| && options.useCM && Consistent(options, infos, w, recs)
    requires ScanViews(options, infos, w, recs) == Some(views)
    requires LabelPass(prefix, options.useCM, w, views, before, nodes, done, ok)
    requires j < done && recs[j].nodeName in w.labelNodes
    ensures Available(w, recs[j].machineUUID, infos[i].cdiModelName).Some?
    ensures NeedsLimits(options, recs[j]) ==> LimitOf(w, recs[j].machineUUID, infos[i].cdiModelName).Some?
    ensures recs[j].nodeName in nodes && recs[j].fabricID.Some?
    ensures var labels := nodes[recs[j].nodeName];
            && FabricKey(prefix) in labels && labels[FabricKey(prefix)] == Itoa(recs[j].fabricID.value)
            && HasLimits(prefix, Expected(options, w, recs[j], infos[i]), labels)
    ensures views[j].rec == recs[j] && infos[i].cdiModelName in views[j].devices
    ensures var device, labels := views[j].devices[infos[i].cdiModelName], nodes[recs[j].nodeName];
            var max, min := prefix + "/" + infos[i].k8sDeviceName + "-size-max",
                            prefix + "/" + infos[i].k8sDeviceName + "-size-min";
            && AsReported(options, w, recs[j], infos[i], device)
            && max in labels && labels[max] == (if device.max.Some? then Itoa(device.max.value) else "0")
            && min in labels && labels[min] == (if device.min.Some? then Itoa(device.min.value) else "0")
  {
    ScanGivesReported(options, infos, w, recs, views, j, i);
    ScanGivesExpected(options, infos, w, recs, views, j, i);
    assert Shared(options, infos, w, recs, recs[j]) == Some(views[j].devices);
    assert NodeLabelled(prefix, options.useCM, w, views[j], nodes);
    assert HasLimits(prefix, views[j].devices[infos[i].cdiModelName], nodes[recs[j].nodeName]);
  }
}
