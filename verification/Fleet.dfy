/** Machines and devices as the scan builds them on the heap: each machine owns a map of device
    objects, copied per fabric and then written per node group. */
module Fleet {
  import opened Text
  import opened Pools
  import opened Scans

  class Device {
    var k8sDeviceName: string
    var driverName: string
    var draAttributes: map<string, string>
    var availableDeviceCount: int
    var minDeviceCount: Option<int>
    var maxDeviceCount: Option<int>

    ghost function View(): DeviceView
      reads this
    {
      DeviceView(DeviceRecord(k8sDeviceName, driverName, draAttributes, availableDeviceCount), minDeviceCount, maxDeviceCount)
    }

    constructor (info: DeviceInfo, available: int)
      ensures View() == NewDevice(info, available)
    {
      k8sDeviceName, driverName, draAttributes := info.k8sDeviceName, info.driverName, info.draAttributes;
      availableDeviceCount, minDeviceCount, maxDeviceCount := available, None, None;
    }

    constructor Copy(other: Device)
      ensures View() == other.View()
    {
      k8sDeviceName, driverName, draAttributes := other.k8sDeviceName, other.driverName, other.draAttributes;
      availableDeviceCount, minDeviceCount, maxDeviceCount :=
        other.availableDeviceCount, other.minDeviceCount, other.maxDeviceCount;
    }
  }

  class Machine {
    const nodeName: string
    const machineUUID: string
    const fabricID: Option<int>
    const nodeGroupUUID: string
    var deviceList: map<string, Device>

    function Rec(): MachineRec {
      MachineRec(nodeName, machineUUID, fabricID, nodeGroupUUID)
    }

    constructor (rec: MachineRec)
      ensures Rec() == rec && deviceList == map[]
    {
      nodeName, machineUUID, fabricID, nodeGroupUUID := rec.nodeName, rec.machineUUID, rec.fabricID, rec.nodeGroupUUID;
      deviceList := map[];
    }
  }

  /** What identifies each machine, in order. */
  ghost predicate Recorded(machines: seq<Machine>, recs: seq<MachineRec>) {
    |recs| == |machines| && forall i :: 0 <= i < |machines| ==> machines[i].Rec() == recs[i]
  }

  ghost function Objects(list: map<string, Device>): set<Device> {
    set k | k in list :: list[k]
  }

  ghost function ListView(list: map<string, Device>): ViewList
    reads Objects(list)
  {
    map k | k in list :: list[k].View()
  }

  ghost predicate DistinctMachines(machines: seq<Machine>) {
    forall i, j :: 0 <= i < j < |machines| ==> machines[i] != machines[j]
  }

  /** No device object appears twice, neither in one machine nor in two. */
  ghost predicate Separate(machines: seq<Machine>)
    reads machines
  {
    && (forall i :: 0 <= i < |machines| ==> NoAlias(machines[i].deviceList))
    && (forall i, j :: 0 <= i < j < |machines| ==> Objects(machines[i].deviceList) !! Objects(machines[j].deviceList))
  }

  ghost predicate NoAlias(list: map<string, Device>) {
    forall k, k' :: k in list && k' in list && k != k' ==> list[k] != list[k']
  }

  /** deviceList.DeepCopy: new objects, equal contents. */
  method DeepCopy(list: map<string, Device>) returns (out: map<string, Device>)
    ensures ListView(out) == ListView(list)
    ensures NoAlias(out) && fresh(Objects(out))
  {
    out := map[];
    var remaining := list.Keys;
    while remaining != {}
      invariant remaining <= list.Keys && out.Keys == list.Keys - remaining
      invariant forall k :: k in out ==> fresh(out[k]) && out[k].View() == list[k].View()
      invariant NoAlias(out)
      decreases |remaining|
    {
      var modelName :| modelName in remaining;
      var newDevice := new Device.Copy(list[modelName]);
      out := out[modelName := newDevice];
      remaining := remaining - {modelName};
    }
  }

  lemma EmptyOrSomeMember(s: set<int>)
    ensures (forall x :: x !in s) ==> s == {}
  {
    if forall x :: x !in s {
      assert s == {};
    }
  }

  /** Gives one machine its own copy of a list. */
  method CopyInto(machines: seq<Machine>, j: nat, list: map<string, Device>)
    requires DistinctMachines(machines) && Separate(machines) && j < |machines|
    modifies machines[j]
    ensures Separate(machines)
    ensures ListView(machines[j].deviceList) == ListView(list) && fresh(Objects(machines[j].deviceList))
  {
    var copy := DeepCopy(list);
    machines[j].deviceList := copy;
    assert forall i :: 0 <= i < |machines| && i != j ==> machines[i].deviceList == old(machines[i].deviceList);
  }

  /** Gives the machines of one fabric their own copies of its list. */
  method CopyToFabric(machines: seq<Machine>, fabricID: int, list: map<string, Device>)
    requires DistinctMachines(machines) && Separate(machines)
    requires forall i :: 0 <= i < |machines| ==> machines[i].fabricID.Some?
    modifies machines
    ensures Separate(machines)
    ensures forall i :: 0 <= i < |machines| && machines[i].fabricID.value == fabricID ==>
              ListView(machines[i].deviceList) == ListView(list) && fresh(Objects(machines[i].deviceList))
    ensures forall i :: 0 <= i < |machines| && machines[i].fabricID.value != fabricID ==>
              machines[i].deviceList == old(machines[i].deviceList)
  {
    for j := 0 to |machines|
      invariant Separate(machines)
      invariant forall i :: 0 <= i < j && machines[i].fabricID.value == fabricID ==>
                  ListView(machines[i].deviceList) == ListView(list) && fresh(Objects(machines[i].deviceList))
      invariant forall i :: 0 <= i < |machines| && machines[i].fabricID.value != fabricID ==>
                  machines[i].deviceList == old(machines[i].deviceList)
    {
      if machines[j].fabricID.value == fabricID {
        CopyInto(machines, j, list);
      }
    }
  }

  /** Gives every machine its own copy of its fabric's list. */
  method CopyPerFabric(machines: seq<Machine>, fabricFound: map<int, map<string, Device>>)
    requires DistinctMachines(machines)
    requires forall i :: 0 <= i < |machines| ==>
               machines[i].deviceList == map[] && machines[i].fabricID.Some?
                   && machines[i].fabricID.value in fabricFound
    modifies machines
    ensures Separate(machines)
    ensures forall i :: 0 <= i < |machines| ==>
              && ListView(machines[i].deviceList) == ListView(fabricFound[machines[i].fabricID.value])
              && fresh(Objects(machines[i].deviceList))
  {
    var remaining := fabricFound.Keys;
    while remaining != {}
      invariant remaining <= fabricFound.Keys
      invariant Separate(machines)
      invariant forall i :: 0 <= i < |machines| && machines[i].fabricID.value in remaining ==>
                machines[i].deviceList == map[]
      invariant forall i :: 0 <= i < |machines| && machines[i].fabricID.value !in remaining ==>
                  && ListView(machines[i].deviceList) == ListView(fabricFound[machines[i].fabricID.value])
                  && fresh(Objects(machines[i].deviceList))
      decreases |remaining|
    {
      EmptyOrSomeMember(remaining);
      var fabricID :| fabricID in remaining;
      CopyToFabric(machines, fabricID, fabricFound[fabricID]);
      remaining := remaining - {fabricID};
    }
  }

  /** Writes the limits of one node group into one machine's devices. */
  method SetLimits(list: map<string, Device>, limits: map<string, Limit>)
    requires NoAlias(list) && limits.Keys <= list.Keys
    modifies Objects(list)
    ensures ListView(list) == AddLimits(old(ListView(list)), limits)
  {
    ghost var before := ListView(list);
    var remaining := limits.Keys;
    while remaining != {}
      invariant remaining <= limits.Keys
      invariant forall k :: k in list ==>
                  list[k].View() == if k in limits.Keys - remaining then Limited(before[k], limits[k]) else before[k]
      decreases |remaining|
    {
      var model :| model in remaining;
      SetLimit(list[model], limits[model]);
      remaining := remaining - {model};
    }
  }

  method SetLimit(device: Device, limit: Limit)
    modifies device
    ensures device.View() == Limited(old(device.View()), limit)
  {
    if limit.min.Some? {
      device.minDeviceCount := limit.min;
    }
    if limit.max.Some? {
      device.maxDeviceCount := limit.max;
    }
  }

  ghost function AllObjects(machines: seq<Machine>): set<Device>
    reads machines
  {
    set i, k | 0 <= i < |machines| && k in machines[i].deviceList :: machines[i].deviceList[k]
  }

  ghost function AllViews(machines: seq<Machine>): seq<ViewList>
    reads machines, AllObjects(machines)
  {
    seq(|machines|, i requires 0 <= i < |machines| reads machines, AllObjects(machines) => ListView(machines[i].deviceList))
  }

  /** Writes the limits of one node group into the machines of that group, and into no other device. */
  method CopyToGroup(machines: seq<Machine>, ngUUID: string, limits: map<string, Limit>)
    requires Separate(machines)
    requires forall i :: 0 <= i < |machines| && machines[i].nodeGroupUUID == ngUUID ==>
             limits.Keys <= machines[i].deviceList.Keys
    modifies AllObjects(machines)
    ensures forall i :: 0 <= i < |machines| ==>
              AllViews(machines)[i] == if machines[i].nodeGroupUUID == ngUUID
                  then AddLimits(old(AllViews(machines)[i]), limits)
                                       else old(AllViews(machines)[i])
  {
    ghost var before := AllViews(machines);
    for j := 0 to |machines|
      invariant forall i :: 0 <= i < |machines| ==>
                  ListView(machines[i].deviceList)
                  == if machines[i].nodeGroupUUID == ngUUID && i < j then AddLimits(before[i], limits) else before[i]
    {
      if machines[j].nodeGroupUUID == ngUUID {
        SetLimits(machines[j].deviceList, limits);
      }
    }
  }

  /** Writes every found group's limits. */
  method CopyLimits(machines: seq<Machine>, found: map<string, map<string, Limit>>)
    requires Separate(machines)
    requires forall i :: 0 <= i < |machines| && machines[i].nodeGroupUUID in found ==>
               found[machines[i].nodeGroupUUID].Keys <= machines[i].deviceList.Keys
    modifies AllObjects(machines)
    ensures forall i :: 0 <= i < |machines| ==>
              AllViews(machines)[i]
              == if machines[i].nodeGroupUUID in found
                  then AddLimits(old(AllViews(machines)[i]), found[machines[i].nodeGroupUUID])
                 else old(AllViews(machines)[i])
  {
    ghost var before := AllViews(machines);
    var remaining := found.Keys;
    while remaining != {}
      invariant remaining <= found.Keys
      invariant forall i :: 0 <= i < |machines| ==>
                  AllViews(machines)[i]
                  == if machines[i].nodeGroupUUID in found.Keys - remaining
                      then AddLimits(before[i], found[machines[i].nodeGroupUUID])
                     else before[i]
      decreases |remaining|
    {
      var ngUUID :| ngUUID in remaining;
      CopyToGroup(machines, ngUUID, found[ngUUID]);
      remaining := remaining - {ngUUID};
    }
  }

  /** The machines' views, in order. */
  ghost function ViewsOf(machines: seq<Machine>): seq<MachineView>
    reads machines, AllObjects(machines)
  {
    seq(|machines|, i requires 0 <= i < |machines| reads machines, AllObjects(machines) =>
      MachineView(machines[i].Rec(), ListView(machines[i].deviceList)))
  }

  /** The same device by device, which survives writes to other objects more readily. */
  ghost predicate Shows(machines: seq<Machine>, views: seq<MachineView>)
    reads machines, AllObjects(machines)
  {
    && |views| == |machines|
    && (forall i :: 0 <= i < |machines| ==>
          views[i].rec == machines[i].Rec() && machines[i].deviceList.Keys == views[i].devices.Keys)
    && (forall i, k :: 0 <= i < |machines| && k in machines[i].deviceList ==>
          machines[i].deviceList[k].View() == views[i].devices[k])
  }

  lemma ShownPointwise(machines: seq<Machine>, views: seq<MachineView>)
    requires views == ViewsOf(machines)
    ensures Shows(machines, views)
  {
    forall i | 0 <= i < |machines|
      ensures views[i].rec == machines[i].Rec() && views[i].devices == ListView(machines[i].deviceList)
    {
    }
  }

  lemma PointwiseShown(machines: seq<Machine>, views: seq<MachineView>)
    requires Shows(machines, views)
    ensures views == ViewsOf(machines)
  {
    forall i | 0 <= i < |machines|
      ensures views[i].devices == ListView(machines[i].deviceList)
    {
    }
  }
}
