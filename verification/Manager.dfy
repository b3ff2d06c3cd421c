/** The CDI manager: its scan loop over an unbounded number of scans, and its shutdown. Maps are walked
    in an arbitrary order throughout. */
module Manager {
  import opened Text
  import opened Naming
  import opened Pools
  import opened Runs
  import opened Providers
  import opened Scans
  import opened ScanLaws
  import opened Batches
  import opened NodeLabels
  import opened Fleet
  import opened Reading
  import opened Shutdown

  /** A ResourceSlice controller. It takes a snapshot of what it is given; `sent` is every snapshot so far. */
  class Controller {
    var resources: Pools
    var stopped: bool
    ghost var sent: seq<Pools>

    constructor (resources: Pools)
      ensures this.resources == resources && sent == [resources] && !stopped
    {
      this.resources, stopped, sent := resources, false, [resources];
    }

    method Update(resources: Pools)
      modifies this
      ensures this.resources == resources && sent == old(sent) + [resources] && stopped == old(stopped)
    {
      this.resources, sent := resources, sent + [resources];
    }

    method Stop()
      modifies this
      ensures stopped && resources == old(resources) && sent == old(sent)
    {
      stopped := true;
    }
  }

  /** The API server: node labels by node name, and slices by object name. */
  class Cluster {
    var nodes: map<string, Labels>
    var slices: Slices

    constructor (nodes: map<string, Labels>, slices: Slices)
      ensures this.nodes == nodes && this.slices == slices
    {
      this.nodes, this.slices := nodes, slices;
    }
  }

  type Controllers = map<string, Controller>

  datatype Outcome = ReadError | LabelError | Success

  class CDIManager {
    const coreClient: Cluster
    const deviceInfos: seq<DeviceInfo>
    const labelPrefix: string
    const cdiOptions: Options
    var namedDriverResources: Resources
    ghost var trace: seq<Event>

    /** The run invariant: the pools are what the run so far makes them. */
    ghost predicate Valid()
      reads this
    {
      && ValidInfos(deviceInfos) && ValidTrace(deviceInfos, trace)
      && namedDriverResources == Run(labelPrefix, deviceInfos, trace)
    }

    /** This controller of driver d has been told exactly what the run says, and holds what the pools are now. */
    ghost predicate Told(c: Controller, d: string)
      requires d in Drivers(deviceInfos) && d in namedDriverResources
      reads this, c
    {
      c.sent == Sent(labelPrefix, deviceInfos, trace, d) && c.resources == namedDriverResources[d]
    }

    /** Every managed driver has its own controller, up to date with the run. */
    ghost predicate Announced(controllers: Controllers)
      reads this, ControllerSet(controllers)
    {
      && controllers.Keys == namedDriverResources.Keys == Drivers(deviceInfos) && Injective(controllers)
      && forall d :: d in controllers ==> Told(controllers[d], d)
    }

    constructor (coreClient: Cluster, ndr: Resources, deviceInfos: seq<DeviceInfo>, labelPrefix: string,
                 options: Options)
      requires ValidInfos(deviceInfos) && ndr == InitResources(deviceInfos)
      ensures Valid() && trace == [] && fresh(this)
      ensures this.coreClient == coreClient && this.deviceInfos == deviceInfos && this.labelPrefix == labelPrefix
      ensures cdiOptions == options
    {
      this.coreClient, this.deviceInfos, this.labelPrefix, cdiOptions := coreClient, deviceInfos, labelPrefix, options;
      namedDriverResources, trace := ndr, [];
    }

    /** Starts one controller per driver; None is an error, from DRA being disabled or a controller not starting. */
    method StartResourceSliceController(draEnabled: bool, startErrors: set<string>) returns (r: Option<Controllers>)
      requires Valid() && trace == []
      ensures r.Some? <==> draEnabled && startErrors !! Drivers(deviceInfos)
      ensures r.Some? ==> Announced(r.value) && fresh(ControllerSet(r.value))
    {
      if !draEnabled {
        return None;
      }
      r := StartControllers(namedDriverResources, startErrors);
      if r.Some? {
        forall d | d in r.value
          ensures Told(r.value[d], d)
        {
          ToldAtStart(r.value[d], d);
        }
      }
    }

    method GeneratePool(device: Device, fabricID: int, generation: int) returns (pool: Pool)
      ensures pool == PoolOf(labelPrefix, device.View().record, fabricID, generation)
    {
      var devices: seq<PublishedDevice> := [];
      var i := 0;
      while i < device.availableDeviceCount
        invariant 0 <= i <= Size(device.availableDeviceCount)
        invariant devices == PublishedDevices(device.View().record)[..i]
      {
        var attributes := CopyAttributes(device.draAttributes);
        devices := devices + [PublishedDevice(DeviceName(device.k8sDeviceName, i), attributes, true, ["FabricDeviceReady"],
                                              ["FabricDeviceReschedule", "FabricDeviceFailed"])];
        i := i + 1;
      }
      assert devices == PublishedDevices(device.View().record);
      pool := Pool([[In(DeviceKey(labelPrefix, device.k8sDeviceName), ["true"]), In(FabricKey(labelPrefix), [Itoa(fabricID)])]],
                   [Slice(devices)], generation);
    }

    /** Regenerates a pool when there is none, or when its number of devices is not the one reported. */
    method UpdatePool(poolName: string, device: Device, fabricID: int) returns (updated: bool)
      requires device.driverName in namedDriverResources
      modifies this`namedDriverResources
      ensures var d, pools := device.driverName, old(namedDriverResources)[device.driverName];
              && namedDriverResources == old(namedDriverResources)[d := pools[poolName :=
                   Updated(labelPrefix, PoolAt(pools, poolName), device.View().record, fabricID)]]
              && (updated <==> namedDriverResources[d] != pools)
    {
      var driver := device.driverName;
      var generation := 1;
      var pool := PoolAt(namedDriverResources[driver], poolName);
      if |pool.slices| == 0 {
        var rebuilt := GeneratePool(device, fabricID, generation);
        namedDriverResources := namedDriverResources[driver := namedDriverResources[driver][poolName := rebuilt]];
        assert namedDriverResources[driver][poolName] != pool;
        return true;
      } else if |pool.slices[0].devices| != device.availableDeviceCount {
        generation := pool.generation;
        generation := generation + 1;
        var rebuilt := GeneratePool(device, fabricID, generation);
        namedDriverResources := namedDriverResources[driver := namedDriverResources[driver][poolName := rebuilt]];
        assert namedDriverResources[driver][poolName] != pool;
        return true;
      }
      assert namedDriverResources[driver][poolName := pool] == namedDriverResources[driver];
      return false;
    }

    /** One device of a scan; devices of drivers that are not managed are passed over. */
    method UpdateDevicePool(device: Device, fabricID: int, needUpdate: set<string>, ghost before: Resources,
                            ghost lists: map<int, DeviceList>, ghost model: string, ghost more: map<int, DeviceList>)
      returns (needed: set<string>)
      requires fabricID in lists && model !in lists[fabricID] && AllDistinct(more)
      requires more == lists[fabricID := lists[fabricID][model := device.View().record]]
      requires namedDriverResources == Next(labelPrefix, before, lists)
               && needUpdate == Changed(before, namedDriverResources)
      modifies this`namedDriverResources
      ensures namedDriverResources == Next(labelPrefix, before, more) && needed == Changed(before, namedDriverResources)
    {
      needed := needUpdate;
      ghost var cur, d := namedDriverResources, device.driverName;
      NextWithOneMore(labelPrefix, before, lists, more, fabricID, model, device.View().record);
      if device.driverName in namedDriverResources {
        OwnDriverWithOneMore(labelPrefix, before[d], lists, more, fabricID, model, device.View().record);
        var poolName := device.k8sDeviceName + "-fabric" + Itoa(fabricID);
        var updated := UpdatePool(poolName, device, fabricID);
        ChangedStep(before, cur, d, poolName, Updated(labelPrefix, PoolAt(cur[d], poolName), device.View().record, fabricID));
        if updated {
          needed := needed + {device.driverName};
        }
      }
    }

    /** Updates the pools of one fabric from one machine's devices, walked in any order. */
    method UpdateFabricPools(deviceList: map<string, Device>, fabricID: int, needUpdate: set<string>,
                             ghost list: ViewList, ghost before: Resources, ghost lists: map<int, DeviceList>)
      returns (needed: set<string>)
      requires list == ListView(deviceList) && DistinctNames(Records(list)) && fabricID !in lists && AllDistinct(lists)
      requires namedDriverResources == Next(labelPrefix, before, lists)
               && needUpdate == Changed(before, namedDriverResources)
      modifies this`namedDriverResources
      ensures namedDriverResources == Next(labelPrefix, before, lists[fabricID := Records(list)])
      ensures needed == Changed(before, namedDriverResources)
    {
      ghost var part: DeviceList := map[];
      needed := needUpdate;
      var remaining := deviceList.Keys;
      NextWithEmptyList(labelPrefix, before, lists, fabricID);
      while remaining != {}
        invariant remaining <= deviceList.Keys && part.Keys == deviceList.Keys - remaining && PartOf(part, list)
        invariant namedDriverResources == Next(labelPrefix, before, lists[fabricID := part])
        invariant needed == Changed(before, namedDriverResources)
        decreases |remaining|
      {
        var model :| model in remaining;
        ghost var more := part[model := list[model].record];
        PartsAreDistinct(more, list, lists, fabricID);
        assert lists[fabricID := more] == lists[fabricID := part][fabricID := more];
        needed := UpdateDevicePool(deviceList[model], fabricID, needed, before, lists[fabricID := part], model, lists[fabricID := more]);
        remaining, part := remaining - {model}, more;
      }
      assert part == Records(list);
    }

    /** Brings the pools up to date, fabric by fabric, from the first machine of each, and tells the controllers of the
        drivers for which something changed. */
    method ManageCDIResourceSlices(machines: seq<Machine>, controllers: Controllers, ghost views: seq<MachineView>)
      requires Shows(machines, views)
      requires forall i :: 0 <= i < |views| ==> DistinctNames(Records(views[i].devices))
      requires controllers.Keys == namedDriverResources.Keys && Injective(controllers)
      modifies this`namedDriverResources, ControllerSet(controllers)
      ensures namedDriverResources == Next(labelPrefix, old(namedDriverResources), FirstLists(views))
      ensures forall d :: d in controllers ==>
                UpdatedOnce(controllers[d], namedDriverResources[d], namedDriverResources[d] != old(namedDriverResources)[d])
      ensures Shows(machines, views)
    {
      PointwiseShown(machines, views);
      var needUpdate := UpdatePools(machines, views);
      NotifyControllers(namedDriverResources, needUpdate, controllers, machines, views);
    }

    method UpdatePools(machines: seq<Machine>, ghost views: seq<MachineView>) returns (needUpdate: set<string>)
      requires views == ViewsOf(machines)
      requires forall i :: 0 <= i < |views| ==> DistinctNames(Records(views[i].devices))
      modifies this`namedDriverResources
      ensures namedDriverResources == Next(labelPrefix, old(namedDriverResources), FirstLists(views))
      ensures needUpdate == Changed(old(namedDriverResources), namedDriverResources)
    {
      ghost var before := namedDriverResources;
      var fabricFound: set<int> := {};
      needUpdate := {};
      ghost var lists: map<int, DeviceList> := map[];
      NextOfNothing(labelPrefix, before);
      for i := 0 to |machines|
        invariant lists == FirstLists(views[..i]) && fabricFound == lists.Keys && AllDistinct(lists)
        invariant namedDriverResources == Next(labelPrefix, before, lists)
        invariant needUpdate == Changed(before, namedDriverResources)
      {
        assert views[i] == MachineView(machines[i].Rec(), ListView(machines[i].deviceList));
        FirstListsOneMore(views, i);
        fabricFound, needUpdate, lists := UpdateMachinePools(machines[i], fabricFound, needUpdate, views[i], before, lists);
      }
      assert views[..|machines|] == views;
    }

    /** Updates the pools of a machine's fabric, unless an earlier machine has. */
    method UpdateMachinePools(machine: Machine, fabricFound: set<int>, needUpdate: set<string>,
                              ghost view: MachineView, ghost before: Resources, ghost lists: map<int, DeviceList>)
      returns (found: set<int>, needed: set<string>, ghost more: map<int, DeviceList>)
      requires view == MachineView(machine.Rec(), ListView(machine.deviceList)) && DistinctNames(Records(view.devices))
      requires fabricFound == lists.Keys && AllDistinct(lists)
      requires namedDriverResources == Next(labelPrefix, before, lists)
               && needUpdate == Changed(before, namedDriverResources)
      modifies this`namedDriverResources
      ensures more == WithList(lists, view) && found == more.Keys && AllDistinct(more)
      ensures namedDriverResources == Next(labelPrefix, before, more) && needed == Changed(before, namedDriverResources)
    {
      found, needed, more := fabricFound, needUpdate, WithList(lists, view);
      if machine.fabricID.Some? && machine.fabricID.value !in fabricFound {
        needed := UpdateFabricPools(machine.deviceList, machine.fabricID.value, needUpdate, view.devices, before, lists);
        found := found + {machine.fabricID.value};
      }
    }

    /** The labels of a machine's node, from the ones it has. */
    method LabelsFor(machine: Machine, labels: Labels, ghost devices: ViewList) returns (out: Labels)
      requires devices == ListView(machine.deviceList) && DistinctDevices(devices)
      ensures Labelled(labelPrefix, cdiOptions.useCM, machine.fabricID, devices, labels, out)
    {
      out := labels;
      if machine.fabricID.Some? {
        out := SetLabel(out, FabricKey(labelPrefix), Itoa(machine.fabricID.value));
      }
      LabelledFabric(labelPrefix, machine.fabricID, labels, out, devices);
      if cdiOptions.useCM {
        out := LabelLimits(labelPrefix, machine.fabricID, machine.deviceList, labels, out, devices);
      }
    }

    /** Labels the machines' nodes in turn, up to the first that cannot be looked up or updated. */
    method ManageCDINodeLabel(w: World, machines: seq<Machine>, ghost views: seq<MachineView>) returns (ok: bool,
                              ghost done: nat)
      requires views == ViewsOf(machines) && DistinctNodes(views)
      requires forall i :: 0 <= i < |views| ==> DistinctDevices(views[i].devices)
      modifies coreClient`nodes
      ensures LabelPass(labelPrefix, cdiOptions.useCM, w, views, old(coreClient.nodes), coreClient.nodes, done, ok)
    {
      for i := 0 to |machines|
        invariant LabelledUpTo(labelPrefix, cdiOptions.useCM, w, views, old(coreClient.nodes), coreClient.nodes, i)
      {
        var machine := machines[i];
        assert views[i] == MachineView(machine.Rec(), ListView(machine.deviceList));
        if machine.nodeName in w.lookupErrors {
          return false, i;
        }
        if machine.nodeName in w.labelNodes {
          var labels := LabelsFor(machine, w.labelNodes[machine.nodeName], views[i].devices);
          if machine.nodeName in w.updateErrors {
            return false, i;
          }
          LabelledOneFurther(labelPrefix, cdiOptions.useCM, w, views, old(coreClient.nodes), coreClient.nodes, i, labels);
          coreClient.nodes := coreClient.nodes[machine.nodeName := labels];
        } else {
          LabelledPastMissing(labelPrefix, cdiOptions.useCM, w, views, old(coreClient.nodes), coreClient.nodes, i);
        }
      }
      return true, |machines|;
    }

    /** One scan. Nothing but the trace changes when reading fails; otherwise all pools, controllers and, up to the first
        error, labels are brought up to date from what was read. */
    method StartCheckResourcePoolLoop(w: World, controllers: Controllers)
      returns (outcome: Outcome, ghost recs: seq<MachineRec>, ghost views: seq<MachineView>, ghost availability: nat,
               ghost limits: nat, ghost done: nat)
      requires Valid() && Announced(controllers)
      modifies this`namedDriverResources, this`trace, coreClient`nodes, ControllerSet(controllers)
      ensures Valid() && Announced(controllers)
      ensures Machines(cdiOptions, w).Some? ==> Enumerates(recs, Machines(cdiOptions, w).value)
      ensures outcome == ReadError <==>
                Machines(cdiOptions, w).None? || ScanViews(cdiOptions, deviceInfos, w, recs).None?
      ensures Queried(cdiOptions, deviceInfos, recs, outcome != ReadError, availability, limits)
      ensures outcome == ReadError ==>
                && trace == old(trace) + [ReadFailed] && unchanged(this`namedDriverResources, coreClient)
                && forall d :: d in controllers ==> unchanged(controllers[d])
      ensures outcome != ReadError ==>
                && ScanViews(cdiOptions, deviceInfos, w, recs) == Some(views)
                && trace == old(trace) + [Scanned(FirstLists(views))]
                && LabelPass(labelPrefix, cdiOptions.useCM, w, views, old(coreClient.nodes), coreClient.nodes, done, outcome == Success)
    {
      views, done := [], 0;
      var machines;
      machines, recs, availability, limits := ReadMachines(cdiOptions, deviceInfos, w);
      if machines.None? {
        outcome := ReadError;
        RecordScan(controllers, ReadFailed, namedDriverResources, [], []);
        return;
      }
      views := ViewsOf(machines.value);
      ScanIsReady(cdiOptions, deviceInfos, w, recs, Machines(cdiOptions, w).value);
      ShownPointwise(machines.value, views);
      outcome, done := ApplyScan(w, machines.value, controllers, views);
    }

    /** The writing phase of a scan. */
    method ApplyScan(w: World, machines: seq<Machine>, controllers: Controllers, ghost views: seq<MachineView>)
      returns (outcome: Outcome, ghost done: nat)
      requires Valid() && Announced(controllers)
      requires Shows(machines, views) && Ready(deviceInfos, views)
      modifies this`namedDriverResources, this`trace, coreClient`nodes, ControllerSet(controllers)
      ensures Valid() && Announced(controllers) && trace == old(trace) + [Scanned(FirstLists(views))]
      ensures outcome != ReadError
      ensures LabelPass(labelPrefix, cdiOptions.useCM, w, views, old(coreClient.nodes), coreClient.nodes, done, outcome == Success)
    {
      PublishScan(machines, controllers, views);
      outcome, done := LabelMachines(w, machines, controllers, views);
    }

    method LabelMachines(w: World, machines: seq<Machine>, controllers: Controllers, ghost views: seq<MachineView>)
      returns (outcome: Outcome, ghost done: nat)
      requires Valid() && Announced(controllers)
      requires Shows(machines, views) && Ready(deviceInfos, views)
      modifies coreClient`nodes
      ensures Valid() && Announced(controllers)
      ensures outcome != ReadError
      ensures LabelPass(labelPrefix, cdiOptions.useCM, w, views, old(coreClient.nodes), coreClient.nodes, done, outcome == Success)
    {
      PointwiseShown(machines, views);
      var ok;
      ok, done := ManageCDINodeLabel(w, machines, views);
      outcome := if ok then Success else LabelError;
    }

    /** Publishes what a scan has read. */
    method PublishScan(machines: seq<Machine>, controllers: Controllers, ghost views: seq<MachineView>)
      requires Valid() && Announced(controllers)
      requires Shows(machines, views) && Ready(deviceInfos, views)
      modifies this`namedDriverResources, this`trace, ControllerSet(controllers)
      ensures Valid() && Announced(controllers) && trace == old(trace) + [Scanned(FirstLists(views))]
      ensures Shows(machines, views)
    {
      NotifyScan(machines, controllers, views);
      RecordScan(controllers, Scanned(FirstLists(views)), old(namedDriverResources), machines, views);
    }

    method NotifyScan(machines: seq<Machine>, controllers: Controllers, ghost views: seq<MachineView>)
      requires Announced(controllers)
      requires Shows(machines, views) && Ready(deviceInfos, views)
      modifies this`namedDriverResources, ControllerSet(controllers)
      ensures namedDriverResources == Next(labelPrefix, old(namedDriverResources), FirstLists(views))
      ensures Notified(controllers, old(namedDriverResources))
      ensures Shows(machines, views)
    {
      ManageCDIResourceSlices(machines, controllers, views);
      forall d | d in controllers
        ensures ToldMore(controllers[d], d, old(namedDriverResources)[d])
      {
        assert old(Told(controllers[d], d));
      }
    }

    /** The scan is over for the controllers but not yet in the trace. */
    ghost predicate Notified(controllers: Controllers, before: Resources)
      requires before.Keys == namedDriverResources.Keys == Drivers(deviceInfos)
      reads this, ControllerSet(controllers)
    {
      && controllers.Keys == Drivers(deviceInfos) && Injective(controllers)
      && forall d :: d in controllers ==> ToldMore(controllers[d], d, before[d])
    }

    ghost predicate ToldMore(c: Controller, d: string, before: Pools)
      requires d in namedDriverResources && d in Drivers(deviceInfos)
      reads this, c
    {
      var now := namedDriverResources[d];
      c.resources == now && c.sent == Sent(labelPrefix, deviceInfos, trace, d) + if now != before then [now] else []
    }

    lemma ScanTold(c: Controller, d: string, e: Event, earlier: seq<Event>, before: Resources)
      requires d in Drivers(deviceInfos) && d in namedDriverResources && d in before
      requires trace == earlier + [e] && before == Run(labelPrefix, deviceInfos, earlier)
      requires namedDriverResources == After(labelPrefix, before, e) && c.resources == namedDriverResources[d]
      requires c.sent == Sent(labelPrefix, deviceInfos, earlier, d)
                         + if namedDriverResources[d] != before[d] then [namedDriverResources[d]] else []
      ensures Told(c, d)
    {
      SentAfter(labelPrefix, deviceInfos, earlier, e, d);
    }

    ghost method RecordScan(controllers: Controllers, e: Event, before: Resources, machines: seq<Machine>,
                            views: seq<MachineView>)
      requires ValidInfos(deviceInfos) && ValidTrace(deviceInfos, trace) && (e.Scanned? ==>
               ValidLists(deviceInfos, e.lists))
      requires before == Run(labelPrefix, deviceInfos, trace) && namedDriverResources == After(labelPrefix, before, e)
      requires Notified(controllers, before) && Shows(machines, views)
      modifies this`trace
      ensures trace == old(trace) + [e] && Valid() && Announced(controllers) && Shows(machines, views)
    {
      RunAfter(labelPrefix, deviceInfos, trace, e);
      trace := trace + [e];
      forall d | d in controllers
        ensures Told(controllers[d], d)
      {
        assert old(ToldMore(controllers[d], d, before[d]));
        ScanTold(controllers[d], d, e, old(trace), before);
      }
    }

    /** Stops every controller, then deletes the slices of the managed pools, driver by driver; requests that fail are
        passed over. */
    method CleanupResourceSlices(controllers: Controllers, listErrors: set<string>, deleteErrors: set<string>)
      requires controllers.Keys <= namedDriverResources.Keys && Injective(controllers)
      modifies ControllerSet(controllers), coreClient`slices
      ensures forall d :: d in controllers ==> Stopped(controllers[d])
      ensures coreClient.slices
           == Cleaned(old(coreClient.slices), namedDriverResources, controllers.Keys - listErrors, deleteErrors)
    {
      StopAll(controllers);
      DeleteAllSlices(controllers.Keys, listErrors, deleteErrors);
    }

    method DeleteAllSlices(drivers: set<string>, listErrors: set<string>, deleteErrors: set<string>)
      requires drivers <= namedDriverResources.Keys
      modifies coreClient`slices
      ensures coreClient.slices == Cleaned(old(coreClient.slices), namedDriverResources, drivers - listErrors, deleteErrors)
    {
      ghost var before := coreClient.slices;
      ghost var cleaned := {};
      var remaining := drivers;
      CleanedOfNothing(before, namedDriverResources, deleteErrors);
      while remaining != {}
        invariant remaining <= drivers && cleaned == drivers - remaining - listErrors
        invariant coreClient.slices == Cleaned(before, namedDriverResources, cleaned, deleteErrors)
        decreases |remaining|
      {
        var driverName :| driverName in remaining;
        remaining := remaining - {driverName};
        if driverName in listErrors {
          continue;
        }
        CleanedOneMore(before, namedDriverResources, cleaned, deleteErrors, driverName);
        DeleteSlices(driverName, deleteErrors);
        cleaned := cleaned + {driverName};
      }
    }

    /** Deletes one driver's listed slices, except those of pools it does not hold. */
    method DeleteSlices(driverName: string, deleteErrors: set<string>)
      requires driverName in namedDriverResources
      modifies coreClient`slices
      ensures coreClient.slices == Cleaned(old(coreClient.slices), namedDriverResources, {driverName}, deleteErrors)
    {
      var list := SlicesOf(coreClient.slices, driverName);
      var publishedPools := namedDriverResources[driverName];
      var remaining := list.Keys;
      CleanedAtStart(coreClient.slices, namedDriverResources, driverName, deleteErrors);
      while remaining != {}
        invariant remaining <= list.Keys
        invariant CleanedBut(old(coreClient.slices), namedDriverResources, {driverName}, deleteErrors, remaining, coreClient.slices)
        decreases |remaining|
      {
        var name :| name in remaining;
        remaining := remaining - {name};
        if list[name].pool !in publishedPools {
          continue;
        }
        if name !in deleteErrors {
          coreClient.slices := coreClient.slices - {name};
        }
      }
      CleanedInTheEnd(old(coreClient.slices), namedDriverResources, {driverName}, deleteErrors, coreClient.slices);
    }

    lemma ToldAtStart(c: Controller, d: string)
      requires Valid() && trace == [] && d in Drivers(deviceInfos)
      requires c.sent == [namedDriverResources[d]] && c.resources == namedDriverResources[d]
      ensures Told(c, d)
    {
    }
  }

  /** One entry without pools per driver, however many devices it has. */
  method InitDriverResources(infos: seq<DeviceInfo>) returns (result: Resources)
    ensures result == InitResources(infos)
    ensures forall d :: d in result <==> exists i :: 0 <= i < |infos| && infos[i].driverName == d
    ensures forall d :: d in result ==> result[d] == map[]
  {
    var foundDriver: set<string> := {};
    result := map[];
    for i := 0 to |infos|
      invariant foundDriver == Drivers(infos[..i]) && result == InitResources(infos[..i])
    {
      DriversOneMore(infos, i);
      if infos[i].driverName in foundDriver {
        continue;
      }
      foundDriver := foundDriver + {infos[i].driverName};
      result := result[infos[i].driverName := map[]];
    }
    assert infos[..|infos|] == infos;
  }

  lemma DriversOneMore(infos: seq<DeviceInfo>, i: nat)
    requires i < |infos|
    ensures Drivers(infos[..i + 1]) == Drivers(infos[..i]) + {infos[i].driverName}
  {
    assert infos[..i + 1][i] == infos[i];
    assert forall j :: 0 <= j < i ==> infos[..i + 1][j] == infos[..i][j];
  }

  method CopyAttributes(draAttributes: map<string, string>) returns (attributes: map<string, string>)
    ensures attributes == draAttributes
  {
    attributes := map[];
    var remaining := draAttributes.Keys;
    while remaining != {}
      invariant remaining <= draAttributes.Keys && attributes == draAttributes - remaining
      decreases |remaining|
    {
      var key :| key in remaining;
      attributes := attributes[key := draAttributes[key]];
      remaining := remaining - {key};
    }
  }

  /** Writes a label unless it already has the value. */
  function SetLabel(labels: Labels, key: string, value: string): (r: Labels)
    ensures r == labels[key := value]
  {
    if key !in labels || labels[key] != value then labels[key := value]
    else
      assert labels[key := value] == labels;
      labels
  }

  /** Writes the two limits of one device; a missing one as "0". */
  method WriteLimits(prefix: string, device: Device, labels: Labels) returns (out: Labels)
    ensures out == Written(prefix, device.View(), labels)
    ensures var key := prefix + "/" + device.k8sDeviceName + "-size-max";
            key in out && out[key] == if device.maxDeviceCount.Some? then Itoa(device.maxDeviceCount.value) else "0"
    ensures var key := prefix + "/" + device.k8sDeviceName + "-size-min";
            key in out && out[key] == if device.minDeviceCount.Some? then Itoa(device.minDeviceCount.value) else "0"
  {
    WrittenKeysDistinct(prefix, device.k8sDeviceName, device.k8sDeviceName);
    out := labels;
    if device.maxDeviceCount.Some? {
      out := SetLabel(out, MaxKey(prefix, device.k8sDeviceName), Itoa(device.maxDeviceCount.value));
    } else {
      out := out[MaxKey(prefix, device.k8sDeviceName) := "0"];
    }
    if device.minDeviceCount.Some? {
      out := SetLabel(out, MinKey(prefix, device.k8sDeviceName), Itoa(device.minDeviceCount.value));
    } else {
      out := out[MinKey(prefix, device.k8sDeviceName) := "0"];
    }
  }

  method LabelDevice(prefix: string, fabricID: Option<int>, device: Device, ghost before: Labels, labels: Labels,
                     ghost part: ViewList, ghost devices: ViewList, ghost model: string) returns (out: Labels)
    requires model in devices && model !in part && device.View() == devices[model] && DistinctDevices(devices)
    requires LabelledInPart(prefix, fabricID, part, devices, before, labels)
    ensures LabelledInPart(prefix, fabricID, part[model := devices[model]], devices, before, out)
  {
    LabelledInPartOneMore(prefix, fabricID, part, devices, model, before, labels);
    out := WriteLimits(prefix, device, labels);
  }

  /** Writes the limits of all devices, walked in any order. */
  method LabelLimits(prefix: string, fabricID: Option<int>, deviceList: map<string, Device>, ghost before: Labels,
                     labels: Labels, ghost devices: ViewList) returns (out: Labels)
    requires devices == ListView(deviceList) && DistinctDevices(devices)
    requires Labelled(prefix, true, fabricID, map[], before, labels)
    ensures Labelled(prefix, true, fabricID, devices, before, out)
  {
    ghost var part: ViewList := map[];
    out := labels;
    var remaining := deviceList.Keys;
    while remaining != {}
      invariant remaining <= deviceList.Keys && forall m :: m in deviceList ==> (m in part <==> m !in remaining)
      invariant LabelledInPart(prefix, fabricID, part, devices, before, out)
      decreases |remaining|
    {
      var model :| model in remaining;
      out := LabelDevice(prefix, fabricID, deviceList[model], before, out, part, devices, model);
      remaining, part := remaining - {model}, part[model := devices[model]];
    }
    LabelledInWhole(prefix, fabricID, part, devices, before, out);
  }

  /** The controller was updated with these pools if needed, and otherwise left alone. */
  twostate predicate UpdatedOnce(c: Controller, pools: Pools, needed: bool)
    reads c
  {
    && c.stopped == old(c.stopped)
    && if needed then c.resources == pools && c.sent == old(c.sent) + [pools]
       else c.resources == old(c.resources) && c.sent == old(c.sent)
  }

  /** The controller is stopped; what it was handed is as before. */
  twostate predicate Stopped(c: Controller)
    reads c
  {
    c.stopped && c.resources == old(c.resources) && c.sent == old(c.sent)
  }

  method StopAll(controllers: Controllers)
    requires Injective(controllers)
    modifies ControllerSet(controllers)
    ensures forall d :: d in controllers ==> Stopped(controllers[d])
  {
    var remaining := controllers.Keys;
    while remaining != {}
      invariant remaining <= controllers.Keys
      invariant forall d :: d in controllers && d in remaining ==> unchanged(controllers[d])
      invariant forall d :: d in controllers && d !in remaining ==> Stopped(controllers[d])
      decreases |remaining|
    {
      var driverName :| driverName in remaining;
      controllers[driverName].Stop();
      remaining := remaining - {driverName};
    }
  }

  method UpdateController(c: Controller, resources: Pools, ghost machines: seq<Machine>, ghost views: seq<MachineView>)
    requires Shows(machines, views)
    modifies c
    ensures c.resources == resources && c.sent == old(c.sent) + [resources] && c.stopped == old(c.stopped)
    ensures Shows(machines, views)
  {
    c.Update(resources);
  }

  method NotifyControllers(resources: Resources, needUpdate: set<string>, controllers: Controllers,
                           ghost machines: seq<Machine>, ghost views: seq<MachineView>)
    requires controllers.Keys == resources.Keys && Injective(controllers)
    requires Shows(machines, views)
    ensures Shows(machines, views)
    modifies ControllerSet(controllers)
    ensures forall d :: d in controllers ==> UpdatedOnce(controllers[d], resources[d], d in needUpdate)
  {
    var remaining := resources.Keys;
    while remaining != {}
      invariant remaining <= resources.Keys
      invariant forall d :: d in controllers ==>
                  UpdatedOnce(controllers[d], resources[d], d in needUpdate && d !in remaining)
      invariant Shows(machines, views)
      decreases |remaining|
    {
      var driverName :| driverName in remaining;
      if driverName in needUpdate {
        UpdateController(controllers[driverName], resources[driverName], machines, views);
      }
      remaining := remaining - {driverName};
    }
  }

  /** The drivers whose pools differ. */
  ghost function Changed(before: Resources, after: Resources): set<string> {
    set d | d in before && d in after && after[d] != before[d]
  }

  /** Some of the devices of a list. */
  ghost predicate PartOf(part: DeviceList, list: ViewList) {
    forall m :: m in part ==> m in list && part[m] == list[m].record
  }

  lemma PartsAreDistinct(part: DeviceList, list: ViewList, lists: map<int, DeviceList>, f: int)
    requires PartOf(part, list) && DistinctNames(Records(list)) && AllDistinct(lists)
    ensures AllDistinct(lists[f := part])
  {
    assert forall m :: m in part ==> m in Records(list) && part[m] == Records(list)[m];
  }

  /** One driver's pools after an update, against what they were at the start of the scan. */
  lemma ChangedStep(before: Resources, cur: Resources, d: string, p: string, pool: Pool)
    requires before.Keys == cur.Keys && d in cur
    requires (p in cur[d] <==> p in before[d]) && PoolAt(cur[d], p) == PoolAt(before[d], p)
    ensures var next := cur[d := cur[d][p := pool]];
            Changed(before, next) == Changed(before, cur) + if next[d] != cur[d] then {d} else {}
  {
    var next := cur[d := cur[d][p := pool]];
    if next[d] == before[d] {
      assert p in before[d] && before[d][p] == pool;
      assert next[d] == cur[d];
    }
    assert forall d' ::
        d' in Changed(before, next) <==> d' in Changed(before, cur) + if next[d] != cur[d] then {d} else {};
  }

  /** One controller per driver, started with a snapshot of the driver's pools. */
  method StartControllers(resources: Resources, startErrors: set<string>) returns (r: Option<Controllers>)
    ensures r.Some? <==> startErrors !! resources.Keys
    ensures r.Some? ==> r.value.Keys == resources.Keys && Injective(r.value) && fresh(ControllerSet(r.value))
    ensures r.Some? ==> forall d :: d in r.value ==>
            r.value[d].resources == resources[d] && r.value[d].sent == [resources[d]]
  {
    var controllers: Controllers := map[];
    var remaining := resources.Keys;
    while remaining != {}
      invariant remaining <= resources.Keys && controllers.Keys == resources.Keys - remaining
      invariant startErrors !! controllers.Keys && Injective(controllers)
      invariant forall d :: d in controllers ==>
                  fresh(controllers[d]) && controllers[d].resources == resources[d]
                      && controllers[d].sent == [resources[d]]
      decreases |remaining|
    {
      var driverName :| driverName in remaining;
      if driverName in startErrors {
        return None;
      }
      var controller := new Controller(resources[driverName]);
      controllers := controllers[driverName := controller];
      remaining := remaining - {driverName};
    }
    return Some(controllers);
  }

  ghost function ControllerSet(controllers: Controllers): set<Controller> {
    set d | d in controllers :: controllers[d]
  }

  ghost predicate Injective(controllers: Controllers) {
    forall d, d' :: d in controllers && d' in controllers && d != d' ==> controllers[d] != controllers[d']
  }
}
