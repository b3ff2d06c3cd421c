/** The whole life of the manager, from start to shutdown, and why the order of map iteration never shows. */
module Lifecycle {
  import opened Text
  import opened Pools
  import opened Runs
  import opened Providers
  import opened Scans
  import opened ScanLaws
  import opened NodeLabels
  import opened Shutdown
  import opened Manager

  /** A scan of this world that took the machines in this order ended so. */
  ghost predicate ScanOf(options: Options, infos: seq<DeviceInfo>, w: World, recs: seq<MachineRec>, e: Event) {
    var machines, views := Machines(options, w), ScanViews(options, infos, w, recs);
    && (machines.Some? ==> Enumerates(recs, machines.value))
    && if machines.None? || views.None? then e == ReadFailed else e == Scanned(FirstLists(views.value))
  }

  /** In this world the fabric manager answers per fabric and the cluster manager per node group. */
  ghost predicate ConsistentWorld(options: Options, infos: seq<DeviceInfo>, w: World) {
    forall recs :: Machines(options, w).Some? && Enumerates(recs, Machines(options, w).value) ==>
        Consistent(options, infos, w, recs)
  }

  /** One machine's answers come from tables for its fabric and its node group. */
  ghost predicate AnsweredFrom(options: Options, infos: seq<DeviceInfo>, w: World, rec: MachineRec,
                               counts: (Option<int>, string) -> Option<int>, limits: (string, string) -> Option<Limit>) {
    forall i :: 0 <= i < |infos| ==>
      && Available(w, rec.machineUUID, infos[i].cdiModelName) == counts(rec.fabricID, infos[i].cdiModelName)
      && (NeedsLimits(options, rec) ==>
            LimitOf(w, rec.machineUUID, infos[i].cdiModelName) == limits(rec.nodeGroupUUID, infos[i].cdiModelName))
  }

  /** Counts that are a function of fabric and model, and limits that are one of node group and model, make a world
      consistent. */
  lemma {:induction false} TablesAreConsistent(options: Options, infos: seq<DeviceInfo>, w: World,
                                               counts: (Option<int>, string) -> Option<int>,
                                               limits: (string, string) -> Option<Limit>)
    requires Machines(options, w).Some? ==>
               forall n :: n in Machines(options, w).value ==>
                 AnsweredFrom(options, infos, w, Machines(options, w).value[n], counts, limits)
    ensures ConsistentWorld(options, infos, w)
  {
    forall recs | Machines(options, w).Some? && Enumerates(recs, Machines(options, w).value)
      ensures Consistent(options, infos, w, recs)
    {
      var machines := Machines(options, w).value;
      forall r | r in recs
        ensures AnsweredFrom(options, infos, w, r, counts, limits)
      {
        assert r.nodeName in machines && machines[r.nodeName] == r;
      }
      AnsweredAlike(options, infos, w, recs, counts, limits);
    }
  }

  lemma {:induction false} AnsweredAlike(options: Options, infos: seq<DeviceInfo>, w: World, recs: seq<MachineRec>,
                                         counts: (Option<int>, string) -> Option<int>,
                                         limits: (string, string) -> Option<Limit>)
    requires forall r :: r in recs ==> AnsweredFrom(options, infos, w, r, counts, limits)
    ensures Consistent(options, infos, w, recs)
  {
    forall a, b | a in recs && b in recs
      ensures a.fabricID == b.fabricID ==> SameCounts(infos, w, a.machineUUID, b.machineUUID)
      ensures NeedsLimits(options, a) && a.nodeGroupUUID == b.nodeGroupUUID ==>
                SameLimits(infos, w, a.machineUUID, b.machineUUID)
    {
      assert AnsweredFrom(options, infos, w, a, counts, limits) && AnsweredFrom(options, infos, w, b, counts, limits);
    }
  }

  lemma MachinesHaveFabrics(options: Options, w: World)
    requires Machines(options, w).Some?
    ensures forall n :: n in Machines(options, w).value ==> Machines(options, w).value[n].fabricID.Some?
  {
  }

  /** However the maps are walked, a scan of a consistent world ends in one way. */
  lemma {:induction false} ScanIsUnique(options: Options, infos: seq<DeviceInfo>, w: World, a: seq<MachineRec>,
                                        e: Event, b: seq<MachineRec>, e': Event)
    requires ConsistentWorld(options, infos, w)
    requires ScanOf(options, infos, w, a, e) && ScanOf(options, infos, w, b, e')
    ensures e == e'
  {
    if Machines(options, w).Some? {
      MachinesHaveFabrics(options, w);
      OrderIndependent(options, infos, w, Machines(options, w).value, a, b);
    }
  }

  /** One scan after another, each in some order. */
  ghost predicate RunOf(options: Options, infos: seq<DeviceInfo>, worlds: seq<World>, orders: seq<seq<MachineRec>>,
                        trace: seq<Event>) {
    && |orders| == |trace| == |worlds|
    && forall i :: 0 <= i < |worlds| ==> ScanOf(options, infos, worlds[i], orders[i], trace[i])
  }

  lemma {:induction false} RunOneMore(options: Options, infos: seq<DeviceInfo>, worlds: seq<World>,
                                      orders: seq<seq<MachineRec>>, trace: seq<Event>, w: World,
                                      recs: seq<MachineRec>, e: Event)
    requires RunOf(options, infos, worlds, orders, trace) && ScanOf(options, infos, w, recs, e)
    ensures RunOf(options, infos, worlds + [w], orders + [recs], trace + [e])
  {
  }

  /** Main result on map iteration. Two runs over the same worlds, every scan of each in an order of its own, have the
      same pools with the same generations and have told every controller the same. */
  lemma {:induction false} RunsAgree(prefix: string, options: Options, infos: seq<DeviceInfo>, worlds: seq<World>,
                                     orders: seq<seq<MachineRec>>, trace: seq<Event>, orders': seq<seq<MachineRec>>,
                                     trace': seq<Event>)
    requires forall i :: 0 <= i < |worlds| ==> ConsistentWorld(options, infos, worlds[i])
    requires RunOf(options, infos, worlds, orders, trace) && RunOf(options, infos, worlds, orders', trace')
    ensures trace == trace' && Run(prefix, infos, trace) == Run(prefix, infos, trace')
    ensures forall d :: d in Drivers(infos) ==> Sent(prefix, infos, trace, d) == Sent(prefix, infos, trace', d)
  {
    forall i | 0 <= i < |worlds|
      ensures trace[i] == trace'[i]
    {
      ScanIsUnique(options, infos, worlds[i], orders[i], trace[i], orders'[i], trace'[i]);
    }
  }

  lemma {:induction false} SameViewsSameMembers(a: seq<MachineView>, b: seq<MachineView>, ra: seq<MachineRec>,
                                                rb: seq<MachineRec>, machines: map<string, MachineRec>)
    requires ViewsFor(a, ra) && ViewsFor(b, rb)
    requires Enumerates(ra, machines) && Enumerates(rb, machines) && SameViews(a, b)
    ensures forall v :: v in a ==> v in b
  {
    forall v | v in a
      ensures v in b
    {
      var i :| 0 <= i < |a| && a[i] == v;
      assert ra[i].nodeName in machines;
      var j :| 0 <= j < |rb| && rb[j].nodeName == ra[i].nodeName;
      assert b[j] == a[i];
    }
  }

  ghost predicate ViewsFor(views: seq<MachineView>, recs: seq<MachineRec>) {
    |views| == |recs| && forall i :: 0 <= i < |views| ==> views[i].rec == recs[i]
  }

  /** Two orders of a consistent world's machines give the same views, in another order. */
  lemma {:induction false} ScanViewsAgree(options: Options, infos: seq<DeviceInfo>, w: World, a: seq<MachineRec>,
                                          b: seq<MachineRec>, va: seq<MachineView>, vb: seq<MachineView>)
    requires ConsistentWorld(options, infos, w) && Machines(options, w).Some?
    requires Enumerates(a, Machines(options, w).value) && Enumerates(b, Machines(options, w).value)
    requires ScanViews(options, infos, w, a) == Some(va) && ScanViews(options, infos, w, b) == Some(vb)
    ensures forall v :: v in va <==> v in vb
  {
    var machines := Machines(options, w).value;
    MachinesHaveFabrics(options, w);
    OrderIndependent(options, infos, w, machines, a, b);
    SameViewsSameMembers(va, vb, a, b, machines);
    SameViewsSameMembers(vb, va, b, a, machines);
  }

  /** Two successful scans of a consistent world, in whatever order, leave the same labels on every node. */
  lemma {:induction false} LabelsAgree(prefix: string, options: Options, infos: seq<DeviceInfo>, w: World,
                                       a: seq<MachineRec>, b: seq<MachineRec>, va: seq<MachineView>,
                                       vb: seq<MachineView>, before: map<string, Labels>, after: map<string, Labels>,
                                       after': map<string, Labels>)
    requires ConsistentWorld(options, infos, w) && Machines(options, w).Some?
    requires Enumerates(a, Machines(options, w).value) && Enumerates(b, Machines(options, w).value)
    requires ScanViews(options, infos, w, a) == Some(va) && ScanViews(options, infos, w, b) == Some(vb)
    requires LabelPass(prefix, options.useCM, w, va, before, after, |va|, true)
    requires LabelPass(prefix, options.useCM, w, vb, before, after', |vb|, true)
    ensures after == after'
  {
    ScanViewsAgree(options, infos, w, a, b, va, vb);
    PassOrderIndependent(prefix, options.useCM, w, va, vb, before, after, after');
  }

  /** Scans once per world. */
  method RunScans(m: CDIManager, controllers: Controllers,
                  worlds: seq<World>) returns (ghost orders: seq<seq<MachineRec>>)
    requires m.Valid() && m.Announced(controllers) && m.trace == []
    modifies m`namedDriverResources, m`trace, m.coreClient`nodes, ControllerSet(controllers)
    ensures m.Valid() && m.Announced(controllers) && RunOf(m.cdiOptions, m.deviceInfos, worlds, orders, m.trace)
  {
    orders := [];
    for i := 0 to |worlds|
      invariant m.Valid() && m.Announced(controllers)
      invariant RunOf(m.cdiOptions, m.deviceInfos, worlds[..i], orders, m.trace)
    {
      ghost var earlier := m.trace;
      ghost var recs, e := RunScan(m, controllers, worlds[i]);
      RunOneMore(m.cdiOptions, m.deviceInfos, worlds[..i], orders, earlier, worlds[i], recs, e);
      assert worlds[..i] + [worlds[i]] == worlds[..i + 1];
      orders := orders + [recs];
    }
    assert worlds[..|worlds|] == worlds;
  }

  method RunScan(m: CDIManager, controllers: Controllers, w: World) returns (ghost recs: seq<MachineRec>,
                 ghost e: Event)
    requires m.Valid() && m.Announced(controllers)
    modifies m`namedDriverResources, m`trace, m.coreClient`nodes, ControllerSet(controllers)
    ensures m.Valid() && m.Announced(controllers)
    ensures m.trace == old(m.trace) + [e] && ScanOf(m.cdiOptions, m.deviceInfos, w, recs, e)
  {
    var outcome;
    ghost var views, availability, limits, done;
    outcome, recs, views, availability, limits, done := m.StartCheckResourcePoolLoop(w, controllers);
    e := if outcome == ReadError then ReadFailed else Scanned(FirstLists(views));
  }

  /** Starts the controllers, scans once per world, and cleans up. What the API server holds at shutdown is given, since
      the controllers publish on their own. */
  method StartCDIManager(api: Cluster, infos: seq<DeviceInfo>, prefix: string, options: Options, draEnabled: bool,
                         startErrors: set<string>, worlds: seq<World>, published: Slices, listErrors: set<string>,
                         deleteErrors: set<string>)
    returns (ok: bool, ghost orders: seq<seq<MachineRec>>, ghost trace: seq<Event>)
    requires ValidInfos(infos)
    modifies api
    ensures ok <==> draEnabled && startErrors !! Drivers(infos)
    ensures !ok ==> unchanged(api)
    ensures ok ==> ValidTrace(infos, trace) && RunOf(options, infos, worlds, orders, trace)
    ensures ok ==> api.slices == Cleaned(published, Run(prefix, infos, trace), Drivers(infos) - listErrors, deleteErrors)
    ensures ok ==> CleanShutdown(prefix, infos, trace, published, listErrors, deleteErrors, api.slices)
  {
    orders, trace := [], [];
    var ndr := InitDriverResources(infos);
    var m := new CDIManager(api, ndr, infos, prefix, options);
    var controllers := m.StartResourceSliceController(draEnabled, startErrors);
    if controllers.None? {
      return false, orders, trace;
    }
    orders := RunScans(m, controllers.value, worlds);
    trace := m.trace;
    api.slices := published;
    m.CleanupResourceSlices(controllers.value, listErrors, deleteErrors);
    ShutdownIsClean(prefix, infos, trace, published, listErrors, deleteErrors);
    return true, orders, trace;
  }
}
