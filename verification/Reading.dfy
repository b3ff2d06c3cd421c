/** The reading phase of a scan: it finds the machines and asks the fabric manager once per fabric and
    the cluster manager once per node group, through whichever machine comes first. */
module Reading {
  import opened Text
  import opened Pools
  import opened Providers
  import opened Scans
  import opened ScanLaws
  import opened Batches
  import opened Fleet

  // Requests to the managers. Each method counts the requests it makes.

  method GetAvailableNums(w: World, uuid: string, model: string) returns (r: Option<int>)
    ensures r == Available(w, uuid, model)
    ensures r.Some? <==> (uuid, model) in w.reserved && w.reserved[(uuid, model)] <= 128
    ensures r.Some? ==> r.value == w.reserved[(uuid, model)]
  {
    if (uuid, model) !in w.reserved {
      return None;
    }
    var reservedResourceNum := w.reserved[(uuid, model)];
    if reservedResourceNum > MAX_RESERVED {
      return None;
    }
    return Some(reservedResourceNum);
  }

  method GetMinMaxNums(w: World, uuid: string, model: string) returns (r: Option<Limit>)
    ensures r == LimitOf(w, uuid, model)
    ensures r.None? <==> (uuid, model) !in w.details
    ensures r.Some? ==> IsLastMin(w.details[(uuid, model)], model, r.value.min)
    ensures r.Some? ==> IsLastMax(w.details[(uuid, model)], model, r.value.max)
  {
    LimitOfDetails(w, uuid, model);
    if (uuid, model) !in w.details {
      return None;
    }
    var specs, min, max := w.details[(uuid, model)], None, None;
    for i := 0 to |specs|
      invariant Limit(min, max) == LimitIn(specs[..i], model)
    {
      assert specs[..i + 1][..i] == specs[..i];
      for j := 0 to |specs[i].conditions|
        invariant Limit(min, max) == if Condition("model", "eq", model) in specs[i].conditions[..j]
                                     then Overridden(LimitIn(specs[..i], model), specs[i])
                                         else LimitIn(specs[..i], model)
      {
        var condition := specs[i].conditions[j];
        if condition.column == "model" && condition.operator == "eq" && condition.value == model {
          if specs[i].min.Some? {
            min := specs[i].min;
          }
          if specs[i].max.Some? {
            max := specs[i].max;
          }
        }
      }
      assert specs[i].conditions[..|specs[i].conditions|] == specs[i].conditions;
    }
    assert specs[..|specs|] == specs;
    return Some(Limit(min, max));
  }

  /** All devices of one machine, up to the first request that fails. */
  method FetchDeviceList(infos: seq<DeviceInfo>, w: World, uuid: string)
    returns (r: Option<map<string, Device>>, ghost queries: nat)
    ensures ReadList(infos, w, uuid) == if r.Some? then Some(ListView(r.value)) else None
    ensures queries <= |infos| && (r.Some? ==> queries == |infos|)
  {
    var deviceList: map<string, Device> := map[];
    queries := 0;
    for j := 0 to |infos|
      invariant ReadList(infos[..j], w, uuid) == Some(ListView(deviceList)) && queries == j
    {
      assert infos[..j + 1][..j] == infos[..j];
      ghost var before := ListView(deviceList);
      queries := queries + 1;
      var availableNum := GetAvailableNums(w, uuid, infos[j].cdiModelName);
      if availableNum.None? {
        FailedReadFails(infos, w, uuid, j + 1);
        return None, queries;
      }
      assert ReadList(infos[..j + 1], w, uuid) == Some(before[infos[j].cdiModelName := NewDevice(infos[j], availableNum.value)]);
      var device := new Device(infos[j], availableNum.value);
      assert ListView(deviceList) == before;
      deviceList := deviceList[infos[j].cdiModelName := device];
      assert ListView(deviceList) == before[infos[j].cdiModelName := NewDevice(infos[j], availableNum.value)];
    }
    assert infos[..|infos|] == infos;
    return Some(deviceList), queries;
  }

  /** The limits of one machine for these models, asked for in any order, up to the first request that fails. */
  method FetchLimitsOf(w: World, uuid: string, models: set<string>) returns (r: Option<map<string, Limit>>,
                       ghost queries: nat)
    ensures r == ReadLimits(w, uuid, models)
    ensures queries <= |models| && (r.Some? ==> queries == |models|)
  {
    var deviceMinMax: map<string, Limit> := map[];
    queries := 0;
    var remaining := models;
    while remaining != {}
      invariant remaining <= models && deviceMinMax.Keys == models - remaining
      invariant forall m :: m in deviceMinMax ==> LimitOf(w, uuid, m) == Some(deviceMinMax[m])
      invariant queries == |models| - |remaining|
      decreases |remaining|
    {
      var model :| model in remaining;
      queries := queries + 1;
      var limit := GetMinMaxNums(w, uuid, model);
      if limit.None? {
        return None, queries;
      }
      deviceMinMax := deviceMinMax[model := limit.value];
      remaining := remaining - {model};
    }
    assert ReadLimits(w, uuid, models).value == deviceMinMax;
    return Some(deviceMinMax), queries;
  }

  /** Reads the list of the i-th machine's fabric, unless an earlier machine has. */
  method FetchFabric(infos: seq<DeviceInfo>, w: World, machine: Machine, fabricFound: map<int, map<string, Device>>,
                     ghost recs: seq<MachineRec>, ghost i: nat, ghost read: map<int, ViewList>, ghost queries: nat)
    returns (r: Option<map<int, map<string, Device>>>, ghost read': map<int, ViewList>, ghost queries': nat)
    requires i < |recs| && recs[i] == machine.Rec() && machine.fabricID.Some?
    requires Holds(fabricFound, read) && FabricsUpTo(infos, w, recs, i, read, queries)
    ensures r.Some? ==> Holds(r.value, read') && FabricsUpTo(infos, w, recs, i + 1, read', queries')
    ensures r.None? ==> && FabricList(infos, w, recs, machine.fabricID.value).None?
                        && queries' <= Times(|Fabrics(recs)|, |infos|)
  {
    var f := machine.fabricID.value;
    if f in fabricFound {
      FabricAlreadyRead(infos, w, recs, i, read, queries);
      return Some(fabricFound), read, queries;
    }
    FabricFirstRead(infos, w, recs, i, read, queries);
    ghost var more: nat;
    var deviceList;
    deviceList, more := FetchDeviceList(infos, w, machine.machineUUID);
    if deviceList.None? {
      return None, read, queries + more;
    }
    assert Holds(fabricFound, read);
    HoldsOneMore(fabricFound, read, f, deviceList.value);
    FabricJustRead(infos, w, recs, i, read, queries, ListView(deviceList.value));
    return Some(fabricFound[f := deviceList.value]), read[f := ListView(deviceList.value)], queries + more;
  }

  /** One device list per fabric, read through its first machine. */
  method FetchFabrics(infos: seq<DeviceInfo>, w: World, machines: seq<Machine>, ghost recs: seq<MachineRec>)
    returns (r: Option<map<int, map<string, Device>>>, ghost read: map<int, ViewList>, ghost queries: nat)
    requires Recorded(machines, recs)
    requires forall i :: 0 <= i < |machines| ==> machines[i].fabricID.Some?
    ensures r.Some? ==> Holds(r.value, read) && FabricsUpTo(infos, w, recs, |recs|, read, queries)
    ensures r.Some? ==> r.value.Keys == Fabrics(recs)
    ensures r.None? ==> && (exists i :: 0 <= i < |recs| && recs[i].fabricID.Some?
                                        && FabricList(infos, w, recs, recs[i].fabricID.value).None?)
                        && queries <= Times(|Fabrics(recs)|, |infos|)
  {
    var fabricFound: map<int, map<string, Device>> := map[];
    read, queries := map[], 0;
    for i := 0 to |machines|
      invariant Holds(fabricFound, read) && FabricsUpTo(infos, w, recs, i, read, queries)
    {
      r, read, queries := FetchFabric(infos, w, machines[i], fabricFound, recs, i, read, queries);
      if r.None? {
        assert FabricList(infos, w, recs, recs[i].fabricID.value).None?;
        return;
      }
      fabricFound := r.value;
    }
    assert recs[..|recs|] == recs;
    r := Some(fabricFound);
  }

  /** Reads the limits of the i-th machine's node group, unless it has none or an earlier machine has. */
  method FetchGroup(infos: seq<DeviceInfo>, w: World, machine: Machine, found: map<string, map<string, Limit>>,
                    ghost recs: seq<MachineRec>, ghost i: nat, ghost queries: nat)
    returns (r: Option<map<string, map<string, Limit>>>, ghost queries': nat)
    requires i < |recs| && recs[i] == machine.Rec() && machine.deviceList.Keys == Models(infos)
    requires GroupsUpTo(infos, w, recs, i, found, queries)
    ensures r.Some? ==> GroupsUpTo(infos, w, recs, i + 1, r.value, queries')
    ensures r.None? ==> && machine.nodeGroupUUID != "" && GroupLimits(infos, w, recs, machine.nodeGroupUUID).None?
                        && queries' <= Times(|NodeGroups(recs)|, |Models(infos)|)
  {
    if |machine.nodeGroupUUID| == 0 || machine.nodeGroupUUID in found {
      GroupAlreadyRead(infos, w, recs, i, found, queries);
      return Some(found), queries;
    }
    r, queries' := FetchNewGroup(infos, w, machine, found, recs, i, queries);
  }

  method FetchNewGroup(infos: seq<DeviceInfo>, w: World, machine: Machine, found: map<string, map<string, Limit>>,
                       ghost recs: seq<MachineRec>, ghost i: nat, ghost queries: nat)
    returns (r: Option<map<string, map<string, Limit>>>, ghost queries': nat)
    requires i < |recs| && recs[i] == machine.Rec() && machine.deviceList.Keys == Models(infos)
    requires machine.nodeGroupUUID != "" && machine.nodeGroupUUID !in found
    requires GroupsUpTo(infos, w, recs, i, found, queries)
    ensures r.Some? ==> GroupsUpTo(infos, w, recs, i + 1, r.value, queries')
    ensures r.None? ==> && GroupLimits(infos, w, recs, machine.nodeGroupUUID).None?
                        && queries' <= Times(|NodeGroups(recs)|, |Models(infos)|)
  {
    GroupFirstRead(infos, w, recs, i, found, queries);
    ghost var more: nat;
    var deviceMinMax;
    deviceMinMax, more := FetchLimitsOf(w, machine.machineUUID, machine.deviceList.Keys);
    if deviceMinMax.None? {
      return None, queries + more;
    }
    GroupJustRead(infos, w, recs, i, found, queries, deviceMinMax.value);
    return Some(found[machine.nodeGroupUUID := deviceMinMax.value]), queries + more;
  }

  /** The limits of every node group, read through its first machine. */
  method FetchLimits(infos: seq<DeviceInfo>, w: World, machines: seq<Machine>, ghost recs: seq<MachineRec>)
    returns (r: Option<map<string, map<string, Limit>>>, ghost queries: nat)
    requires Recorded(machines, recs)
    requires forall i :: 0 <= i < |machines| ==> machines[i].deviceList.Keys == Models(infos)
    ensures r.Some? ==> GroupsUpTo(infos, w, recs, |recs|, r.value, queries)
    ensures r.None? ==> && (exists i :: 0 <= i < |recs| && recs[i].nodeGroupUUID != ""
                                        && GroupLimits(infos, w, recs, recs[i].nodeGroupUUID).None?)
                        && queries <= Times(|NodeGroups(recs)|, |Models(infos)|)
  {
    var nodeGroupFound: map<string, map<string, Limit>> := map[];
    queries := 0;
    for i := 0 to |machines|
      invariant GroupsUpTo(infos, w, recs, i, nodeGroupFound, queries)
    {
      r, queries := FetchGroup(infos, w, machines[i], nodeGroupFound, recs, i, queries);
      if r.None? {
        assert recs[i].nodeGroupUUID != "" && GroupLimits(infos, w, recs, recs[i].nodeGroupUUID).None?;
        return;
      }
      nodeGroupFound := r.value;
    }
    r := Some(nodeGroupFound);
  }

  /** Gives every machine its own copy of its fabric's list. */
  method FillFromFabrics(infos: seq<DeviceInfo>, w: World, machines: seq<Machine>, ghost recs: seq<MachineRec>)
    returns (ok: bool, ghost read: map<int, ViewList>, ghost queries: nat)
    requires Recorded(machines, recs) && DistinctMachines(machines)
    requires forall i :: 0 <= i < |machines| ==> machines[i].deviceList == map[] && machines[i].fabricID.Some?
    modifies machines
    ensures queries <= Times(|Fabrics(recs)|, |infos|) && (ok ==> queries == Times(|Fabrics(recs)|, |infos|))
    ensures ok ==> Filled(infos, w, machines, recs, read) && Separate(machines) && fresh(AllObjects(machines))
    ensures !ok ==> exists i ::
              0 <= i < |recs| && recs[i].fabricID.Some? && FabricList(infos, w, recs, recs[i].fabricID.value).None?
  {
    var fabricFound;
    fabricFound, read, queries := FetchFabrics(infos, w, machines, recs);
    if fabricFound.None? {
      return false, read, queries;
    }
    assert recs[..|recs|] == recs;
    AllFabricsListed(infos, w, recs, read);
    CopyPerFabric(machines, fabricFound.value);
    FilledFromCopies(infos, w, machines, recs, fabricFound.value, read);
    AllObjectsListed(machines);
    return true, read, queries;
  }

  /** Adds the limits of every machine's node group. */
  method FillLimits(options: Options, infos: seq<DeviceInfo>, w: World, machines: seq<Machine>,
                    ghost recs: seq<MachineRec>, ghost read: map<int, ViewList>) returns (ok: bool, ghost queries: nat)
    requires options.useCM && Filled(infos, w, machines, recs, read) && Separate(machines)
    modifies AllObjects(machines)
    ensures queries <= Times(|NodeGroups(recs)|, |Models(infos)|)
    ensures ok ==> queries == Times(|NodeGroups(recs)|, |Models(infos)|)
    ensures ScanViews(options, infos, w, recs) == if ok then Some(ViewsOf(machines)) else None
  {
    FilledKeys(infos, w, machines, recs, read);
    var nodeGroupFound;
    nodeGroupFound, queries := FetchLimits(infos, w, machines, recs);
    if nodeGroupFound.None? {
      UnreadGroupFails(options, infos, w, recs, read);
      return false, queries;
    }
    assert recs[..|recs|] == recs;
    ApplyLimits(options, infos, w, machines, recs, read, nodeGroupFound.value);
    return true, queries;
  }

  /** Gives every machine its device list: the one of its fabric, with the limits of its node group. */
  method FillMachines(options: Options, infos: seq<DeviceInfo>, w: World, machines: seq<Machine>,
                      ghost recs: seq<MachineRec>)
    returns (ok: bool, ghost availability: nat, ghost limits: nat)
    requires Recorded(machines, recs) && DistinctMachines(machines)
    requires forall i :: 0 <= i < |machines| ==> machines[i].deviceList == map[] && machines[i].fabricID.Some?
    modifies machines
    ensures ScanViews(options, infos, w, recs) == if ok then Some(ViewsOf(machines)) else None
    ensures Queried(options, infos, recs, ok, availability, limits)
  {
    ghost var read;
    limits := 0;
    ok, read, availability := FillFromFabrics(infos, w, machines, recs);
    if !ok {
      UnreadFabricFails(options, infos, w, recs);
    } else if options.useCM {
      ok, limits := FillLimits(options, infos, w, machines, recs, read);
    } else {
      FilledWithoutLimits(options, infos, w, machines, recs, read);
    }
  }

  /** Writes the limits that were read into the machines' devices. */
  method ApplyLimits(options: Options, infos: seq<DeviceInfo>, w: World, machines: seq<Machine>,
                     ghost recs: seq<MachineRec>, ghost read: map<int, ViewList>,
                     limits: map<string, map<string, Limit>>)
    requires options.useCM && Filled(infos, w, machines, recs, read) && Separate(machines)
    requires limits.Keys == NodeGroups(recs) && AllGroupsRead(infos, w, recs, limits)
    modifies AllObjects(machines)
    ensures ScanViews(options, infos, w, recs) == Some(ViewsOf(machines))
  {
    FilledKeys(infos, w, machines, recs, read);
    AllGroupsListed(infos, w, recs, limits);
    CopyLimits(machines, limits);
    FilledWithLimits(options, infos, w, machines, recs, read, limits);
  }

  /** Every machine holds the list read for its fabric. */
  ghost predicate Filled(infos: seq<DeviceInfo>, w: World, machines: seq<Machine>, recs: seq<MachineRec>,
                         read: map<int, ViewList>)
    reads machines, AllObjects(machines)
  {
    && Recorded(machines, recs) && AllFabricsRead(infos, w, recs, read)
    && (forall i :: 0 <= i < |recs| ==> recs[i].fabricID.Some? && recs[i].fabricID.value in read)
    && (forall i :: 0 <= i < |recs| ==>
          AllViews(machines)[i] == read[recs[i].fabricID.value] && AllViews(machines)[i].Keys == Models(infos))
  }

  lemma FilledFromCopies(infos: seq<DeviceInfo>, w: World, machines: seq<Machine>, recs: seq<MachineRec>,
                         found: map<int, map<string, Device>>, read: map<int, ViewList>)
    requires Recorded(machines, recs) && AllFabricsRead(infos, w, recs, read) && Holds(found, read)
    requires forall i :: 0 <= i < |recs| ==>
               recs[i].fabricID.Some? && recs[i].fabricID.value in read
                   && read[recs[i].fabricID.value].Keys == Models(infos)
    requires forall i :: 0 <= i < |recs| ==> ListView(machines[i].deviceList) == ListView(found[recs[i].fabricID.value])
    ensures Filled(infos, w, machines, recs, read)
  {
    forall i | 0 <= i < |recs|
      ensures AllViews(machines)[i] == read[recs[i].fabricID.value]
    {
      var f := recs[i].fabricID.value;
      assert f in found && ListView(found[f]) == read[f];
      assert AllViews(machines)[i] == ListView(machines[i].deviceList);
    }
  }

  lemma FilledKeys(infos: seq<DeviceInfo>, w: World, machines: seq<Machine>, recs: seq<MachineRec>,
                   read: map<int, ViewList>)
    requires Filled(infos, w, machines, recs, read)
    ensures forall i :: 0 <= i < |machines| ==> machines[i].deviceList.Keys == Models(infos)
  {
    forall i | 0 <= i < |machines|
      ensures machines[i].deviceList.Keys == Models(infos)
    {
      assert AllViews(machines)[i] == ListView(machines[i].deviceList);
    }
  }

  lemma AllObjectsListed(machines: seq<Machine>)
    ensures forall o :: o in AllObjects(machines) ==>
            exists i :: 0 <= i < |machines| && o in Objects(machines[i].deviceList)
  {
  }

  /** The lists on the heap hold these views. */
  ghost predicate Holds(found: map<int, map<string, Device>>, read: map<int, ViewList>)
    reads set f, k | f in found && k in found[f] :: found[f][k]
  {
    found.Keys == read.Keys && forall f :: f in found ==> ListView(found[f]) == read[f]
  }

  lemma HoldsOneMore(found: map<int, map<string, Device>>, read: map<int, ViewList>, f: int, list: map<string, Device>)
    requires Holds(found, read)
    ensures Holds(found[f := list], read[f := ListView(list)])
  {
  }

  /** Machines that hold what each should share are the result of the scan. */
  lemma FilledMachines(options: Options, infos: seq<DeviceInfo>, w: World, machines: seq<Machine>,
                       recs: seq<MachineRec>)
    requires Recorded(machines, recs)
    requires forall i :: 0 <= i < |recs| ==> Shared(options, infos, w, recs, recs[i]) == Some(ListView(machines[i].deviceList))
    ensures ScanViews(options, infos, w, recs) == Some(ViewsOf(machines))
  {
    assert ScanViews(options, infos, w, recs).value == ViewsOf(machines);
  }

  lemma FilledWithoutLimits(options: Options, infos: seq<DeviceInfo>, w: World, machines: seq<Machine>,
                            recs: seq<MachineRec>, read: map<int, ViewList>)
    requires !options.useCM && Filled(infos, w, machines, recs, read)
    ensures ScanViews(options, infos, w, recs) == Some(ViewsOf(machines))
  {
    assert forall i :: 0 <= i < |recs| ==> AllViews(machines)[i] == ListView(machines[i].deviceList);
    FilledMachines(options, infos, w, machines, recs);
  }

  lemma FilledWithLimits(options: Options, infos: seq<DeviceInfo>, w: World, machines: seq<Machine>,
                         recs: seq<MachineRec>, read: map<int, ViewList>, limits: map<string, map<string, Limit>>)
    requires Recorded(machines, recs) && options.useCM
    requires AllFabricsRead(infos, w, recs, read) && AllGroupsRead(infos, w, recs, limits)
    requires forall i :: 0 <= i < |recs| ==> recs[i].fabricID.Some? && recs[i].fabricID.value in read
    requires forall i :: 0 <= i < |recs| && recs[i].nodeGroupUUID != "" ==> recs[i].nodeGroupUUID in limits
    requires forall i :: 0 <= i < |recs| ==>
               AllViews(machines)[i]
               == if recs[i].nodeGroupUUID in limits then AddLimits(read[recs[i].fabricID.value], limits[recs[i].nodeGroupUUID])
                  else read[recs[i].fabricID.value]
    ensures ScanViews(options, infos, w, recs) == Some(ViewsOf(machines))
  {
    assert forall i :: 0 <= i < |recs| ==> AllViews(machines)[i] == ListView(machines[i].deviceList);
    FilledMachines(options, infos, w, machines, recs);
  }

  lemma {:induction false} FailedReadFails(infos: seq<DeviceInfo>, w: World, uuid: string, n: nat)
    requires n <= |infos| && ReadList(infos[..n], w, uuid).None?
    ensures ReadList(infos, w, uuid).None?
    decreases |infos|
  {
    if n == |infos| {
      assert infos[..n] == infos;
    } else {
      assert infos[..|infos| - 1][..n] == infos[..n];
      FailedReadFails(infos[..|infos| - 1], w, uuid, n);
    }
  }

  // Finding the machines.

  method GetFabricID(list: seq<FMMachine>, uuid: string) returns (r: Option<int>)
    ensures r == FabricOf(list, uuid)
    ensures (forall j :: 0 <= j < |list| ==> list[j].machineUUID != uuid) ==> r.None?
    ensures forall i :: FirstEntry(list, uuid, i) ==> r == list[i].fabricID
  {
    FabricOfEntries(list, uuid);
    for i := 0 to |list|
      invariant FabricOf(list, uuid) == FabricOf(list[i..], uuid)
    {
      if list[i].machineUUID == uuid {
        return list[i].fabricID;
      }
    }
    return None;
  }

  method GetNodeGroupInfos(w: World) returns (r: Option<seq<CMNodeGroupInfo>>)
    ensures r == Groups(w)
    ensures r.None? <==> w.nodeGroups.None? || exists i :: 0 <= i < |w.nodeGroups.value| && i !in w.groupInfos
    ensures r.Some? ==> |r.value| == |w.nodeGroups.value|
    ensures r.Some? ==> forall i :: 0 <= i < |r.value| ==> r.value[i] == w.groupInfos[i]
  {
    if w.nodeGroups.None? {
      return None;
    }
    var groups := w.nodeGroups.value;
    var ngInfos: seq<CMNodeGroupInfo> := [];
    for i := 0 to |groups|
      invariant |ngInfos| == i && forall j :: 0 <= j < i ==> j in w.groupInfos && ngInfos[j] == w.groupInfos[j]
    {
      if i !in w.groupInfos {
        return None;
      }
      ngInfos := ngInfos + [w.groupInfos[i]];
    }
    assert Groups(w).value == ngInfos;
    return Some(ngInfos);
  }

  /** The node group of a machine: each group that lists it overwrites the one before. */
  method FindNodeGroup(groups: seq<CMNodeGroupInfo>, uuid: string) returns (r: string)
    ensures r == LastGroup(groups, uuid) && IsLastGroup(groups, uuid, r)
  {
    LastGroupIsLast(groups, uuid);
    r := "";
    for i := 0 to |groups|
      invariant r == LastGroup(groups[..i], uuid)
    {
      assert groups[..i + 1][..i] == groups[..i];
      if uuid in groups[i].machineIDs {
        r := groups[i].uuid;
      }
    }
    assert groups[..|groups|] == groups;
  }

  lemma {:induction false} EnumeratesOneMore(recs: seq<MachineRec>, machines: map<string, MachineRec>, rec: MachineRec)
    requires Enumerates(recs, machines) && rec.nodeName !in machines
    ensures Enumerates(recs + [rec], machines[rec.nodeName := rec])
  {
    var more, all := recs + [rec], machines[rec.nodeName := rec];
    forall n | n in all
      ensures exists i :: 0 <= i < |more| && more[i].nodeName == n
    {
      if n == rec.nodeName {
        assert more[|recs|].nodeName == n;
      } else {
        var i :| 0 <= i < |recs| && recs[i].nodeName == n;
        assert more[i].nodeName == n;
      }
    }
  }

  /** The machine of one node, unless it has no fabric. */
  method BuildMachine(uuids: map<string, string>, list: seq<FMMachine>, groups: seq<CMNodeGroupInfo>, nodeName: string)
    returns (r: Option<Machine>)
    requires nodeName in uuids
    ensures r.Some? <==> FabricOf(list, uuids[nodeName]).Some?
    ensures r.Some? ==> && fresh(r.value) && r.value.deviceList == map[] && r.value.fabricID.Some?
                        && r.value.Rec() == MachineOf(uuids, list, groups, nodeName)
  {
    var fabricID := GetFabricID(list, uuids[nodeName]);
    if fabricID.None? {
      return None;
    }
    var nodeGroupUUID := FindNodeGroup(groups, uuids[nodeName]);
    var machine := new Machine(MachineRec(nodeName, uuids[nodeName], fabricID, nodeGroupUUID));
    return Some(machine);
  }

  /** One machine per node whose UUID the fabric manager lists with a fabric, the nodes taken in any order. */
  method BuildMachines(uuids: map<string, string>, list: seq<FMMachine>, groups: seq<CMNodeGroupInfo>)
    returns (machines: seq<Machine>, ghost recs: seq<MachineRec>)
    ensures Recorded(machines, recs) && Enumerates(recs, MachinesOf(uuids, list, groups))
    ensures AreMachinesOf(uuids, list, groups, recs)
    ensures DistinctMachines(machines)
    ensures forall i :: 0 <= i < |machines| ==>
              fresh(machines[i]) && machines[i].deviceList == map[] && machines[i].fabricID.Some?
  {
    machines, recs := [], [];
    ghost var found: map<string, MachineRec> := map[];
    var remaining := uuids.Keys;
    while remaining != {}
      invariant remaining <= uuids.Keys
      invariant forall n :: n in found <==> n in uuids.Keys - remaining && FabricOf(list, uuids[n]).Some?
      invariant forall n :: n in found ==> found[n] == MachineOf(uuids, list, groups, n)
      invariant Recorded(machines, recs) && Enumerates(recs, found) && DistinctMachines(machines)
      invariant forall i :: 0 <= i < |machines| ==>
                  fresh(machines[i]) && machines[i].deviceList == map[] && machines[i].fabricID.Some?
      decreases |remaining|
    {
      var nodeName :| nodeName in remaining;
      var machine := BuildMachine(uuids, list, groups, nodeName);
      if machine.Some? {
        EnumeratesOneMore(recs, found, machine.value.Rec());
        machines, recs := machines + [machine.value], recs + [machine.value.Rec()];
        found := found[nodeName := machine.value.Rec()];
      }
      remaining := remaining - {nodeName};
    }
    assert found == MachinesOf(uuids, list, groups);
    EnumeratedAreMachines(uuids, list, groups, recs);
  }

  /** The machines to process; None is one of the errors before any request for devices. */
  method FindMachines(options: Options, w: World) returns (r: Option<seq<Machine>>, ghost recs: seq<MachineRec>)
    ensures r.None? <==> Machines(options, w).None?
    ensures r.Some? ==> && Recorded(r.value, recs) && Enumerates(recs, Machines(options, w).value)
                        && DistinctMachines(r.value)
                        && forall i :: 0 <= i < |r.value| ==>
                             fresh(r.value[i]) && r.value[i].deviceList == map[] && r.value[i].fabricID.Some?
  {
    var muuids := GetMachineUUIDs(options.useCapiBmh, w.nodes, w.hosts);
    r, recs := FindMachinesOf(options, w, muuids);
  }

  method FindMachinesOf(options: Options, w: World, muuids: Option<map<string, string>>)
    returns (r: Option<seq<Machine>>, ghost recs: seq<MachineRec>)
    ensures r.None? <==> MachinesWith(options, w, muuids).None?
    ensures r.Some? ==> && Recorded(r.value, recs) && Enumerates(recs, MachinesWith(options, w, muuids).value)
                        && DistinctMachines(r.value)
                        && forall i :: 0 <= i < |r.value| ==>
                             fresh(r.value[i]) && r.value[i].deviceList == map[] && r.value[i].fabricID.Some?
  {
    recs := [];
    if muuids.None? || |muuids.value| == 0 || w.machineList.None? {
      return None, recs;
    }
    var ngInfos: Option<seq<CMNodeGroupInfo>> := Some([]);
    if options.useCM {
      ngInfos := GetNodeGroupInfos(w);
      if ngInfos.None? {
        return None, recs;
      }
    }
    var machines;
    machines, recs := BuildMachines(muuids.value, w.machineList.value, ngInfos.value);
    NoMachines(recs, MachinesOf(muuids.value, w.machineList.value, ngInfos.value));
    if |machines| == 0 {
      return None, recs;
    }
    return Some(machines), recs;
  }

  lemma NoMachines(recs: seq<MachineRec>, machines: map<string, MachineRec>)
    requires Enumerates(recs, machines)
    ensures recs == [] <==> machines == map[]
  {
    if recs == [] {
      assert machines.Keys == {};
    } else {
      assert recs[0].nodeName in machines;
    }
  }

  /** The whole reading phase. None is an error; whether it is one does not depend on what the scan does later. */
  method ReadMachines(options: Options, infos: seq<DeviceInfo>, w: World)
    returns (r: Option<seq<Machine>>, ghost recs: seq<MachineRec>, ghost availability: nat, ghost limits: nat)
    ensures Machines(options, w).None? ==> r.None?
    ensures Machines(options, w).Some? ==> Enumerates(recs, Machines(options, w).value) && recs != []
    ensures r.Some? ==> Machines(options, w).Some? && ScanViews(options, infos, w, recs) == Some(ViewsOf(r.value))
    ensures r.None? ==> Machines(options, w).None? || ScanViews(options, infos, w, recs).None?
    ensures Queried(options, infos, recs, r.Some?, availability, limits)
  {
    availability, limits := 0, 0;
    r, recs := FindMachines(options, w);
    if r.Some? {
      NoMachines(recs, Machines(options, w).value);
      var ok;
      ok, availability, limits := FillMachines(options, infos, w, r.value, recs);
      if !ok {
        r := None;
      }
    }
  }
}
