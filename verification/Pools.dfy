/** Resource pools as values: what one scan does to the pools of every driver. */
module Pools {
  import opened Text
  import opened Naming

  /** One validated entry of the device-info list (pkg/config/config.go). */
  datatype DeviceInfo = DeviceInfo(cdiModelName: string, k8sDeviceName: string, driverName: string,
                                   draAttributes: map<string, string>)

  /** What the configuration validator guarantees and the driver relies on. */
  ghost predicate ValidInfos(infos: seq<DeviceInfo>) {
    forall i, j :: 0 <= i < j < |infos| ==>
      infos[i].cdiModelName != infos[j].cdiModelName && infos[i].k8sDeviceName != infos[j].k8sDeviceName
  }

  /** The part of a device object that pools are made of: a copy of its device info and the reported count. */
  datatype DeviceRecord = DeviceRecord(k8sDeviceName: string, driverName: string,
                                       draAttributes: map<string, string>, available: int)

  /** CDI model name -> device. */
  type DeviceList = map<string, DeviceRecord>

  datatype PublishedDevice = PublishedDevice(name: string, attributes: map<string, string>,
                                             bindsToNode: bool, bindingConditions: seq<string>,
                                             bindingFailureConditions: seq<string>)

  datatype Slice = Slice(devices: seq<PublishedDevice>)

  /** A node-selector requirement with operator In. */
  datatype Requirement = In(key: string, values: seq<string>)

  /** The selector is a disjunction of terms, each a conjunction of requirements. */
  datatype Pool = Pool(selector: seq<seq<Requirement>>, slices: seq<Slice>, generation: int)

  type Pools = map<string, Pool>

  /** Driver name -> pool name -> pool: the long-lived state of the manager. */
  type Resources = map<string, Pools>

  /** Go's zero value, which reading a missing map key yields. */
  const ZERO_POOL := Pool([], [], 0)

  function PoolAt(pools: Pools, p: string): Pool {
    if p in pools then pools[p] else ZERO_POOL
  }

  function Published(device: DeviceRecord, i: nat): PublishedDevice {
    PublishedDevice(DeviceName(device.k8sDeviceName, i), device.draAttributes, true, ["FabricDeviceReady"],
                    ["FabricDeviceReschedule", "FabricDeviceFailed"])
  }

  function Selector(prefix: string, k8sDeviceName: string, fabricID: int): seq<seq<Requirement>> {
    [[In(DeviceKey(prefix, k8sDeviceName), ["true"]), In(FabricKey(prefix), [Itoa(fabricID)])]]
  }

  function Size(available: int): nat {
    if available < 0 then 0 else available
  }

  function PublishedDevices(device: DeviceRecord): (s: seq<PublishedDevice>)
    ensures |s| == Size(device.available)
  {
    seq(Size(device.available), i requires i >= 0 => Published(device, i))
  }

  /** What generatePool builds. A negative count yields an empty slice. */
  function PoolOf(prefix: string, device: DeviceRecord, fabricID: int, generation: int): Pool {
    Pool(Selector(prefix, device.k8sDeviceName, fabricID),
         [Slice(PublishedDevices(device))], generation)
  }

  /** What updatePool leaves under the pool's name when `pool` was there before. */
  function Updated(prefix: string, pool: Pool, device: DeviceRecord, fabricID: int): Pool {
    if |pool.slices| == 0 then PoolOf(prefix, device, fabricID, 1)
    else if |pool.slices[0].devices| != device.available then PoolOf(prefix, device, fabricID, pool.generation + 1)
    else pool
  }

  /** Comparing the number of devices is sound change detection: a pool that came from the same device
      info, and that updatePool leaves alone, already is what generatePool would build now. */
  lemma CountComparisonIsSound(prefix: string, before: DeviceRecord, device: DeviceRecord, fabricID: int,
                               generation: int)
    requires before.k8sDeviceName == device.k8sDeviceName && before.draAttributes == device.draAttributes
    ensures var pool := PoolOf(prefix, before, fabricID, generation);
            var after := Updated(prefix, pool, device, fabricID);
            && (after == pool ==> pool == PoolOf(prefix, device, fabricID, generation))
            && (after != pool ==> after == PoolOf(prefix, device, fabricID, generation + 1))
            && (after == pool <==> Size(before.available) == device.available)
  {
    if Size(before.available) == device.available {
      assert PublishedDevices(before) == PublishedDevices(device);
    }
  }

  /** Repeating the same report settles exactly when the count is not negative: a negative count, which the
      driver lets through, bumps the generation at every scan. */
  lemma UpdateSettlesIffNotNegative(prefix: string, pool: Pool, device: DeviceRecord, fabricID: int)
    ensures var once := Updated(prefix, pool, device, fabricID);
            Updated(prefix, once, device, fabricID) == once <==> device.available >= 0
  {
  }

  // One scan.

  /** No two devices of a list share a Kubernetes name; the validator demands it of the device infos. */
  predicate DistinctNames(list: DeviceList) {
    forall m, m' :: m in list && m' in list && m != m' ==> list[m].k8sDeviceName != list[m'].k8sDeviceName
  }

  /** lists[f][m] is a device that belongs in pool p of driver d. */
  predicate Feeds(lists: map<int, DeviceList>, d: string, p: string, f: int, m: string) {
    f in lists && m in lists[f] && lists[f][m].driverName == d && PoolName(lists[f][m].k8sDeviceName, f) == p
  }

  function FedPools(lists: map<int, DeviceList>, d: string): set<string> {
    set f, m | f in lists && m in lists[f] && lists[f][m].driverName == d :: PoolName(lists[f][m].k8sDeviceName, f)
  }

  /** The device a scan with these lists puts in pool p of driver d, with its fabric. */
  ghost function Feed(lists: map<int, DeviceList>, d: string, p: string): (r: Option<(DeviceRecord, int)>)
    ensures r.Some? ==> exists m :: Feeds(lists, d, p, r.value.1, m) && lists[r.value.1][m] == r.value.0
    ensures r.None? ==> forall f, m :: !Feeds(lists, d, p, f, m)
  {
    if exists f, m :: Feeds(lists, d, p, f, m) then
      var f, m :| Feeds(lists, d, p, f, m);
      Some((lists[f][m], f))
    else None
  }

  ghost predicate AllDistinct(lists: map<int, DeviceList>) {
    forall f :: f in lists ==> DistinctNames(lists[f])
  }

  /** Pool names are injective, so at most one device feeds a pool. */
  lemma FeedIsUnique(lists: map<int, DeviceList>, d: string, p: string, f: int, m: string)
    requires AllDistinct(lists) && Feeds(lists, d, p, f, m)
    ensures Feed(lists, d, p) == Some((lists[f][m], f))
    ensures forall f', m' :: Feeds(lists, d, p, f', m') ==> f' == f && m' == m
  {
    forall f', m' | Feeds(lists, d, p, f', m')
      ensures f' == f && m' == m
    {
      PoolNameInjective(lists[f][m].k8sDeviceName, f, lists[f'][m'].k8sDeviceName, f');
    }
  }

  ghost function NextPool(prefix: string, pools: Pools, lists: map<int, DeviceList>, d: string, p: string): Pool {
    match Feed(lists, d, p)
    case Some(fed) => Updated(prefix, PoolAt(pools, p), fed.0, fed.1)
    case None => PoolAt(pools, p)
  }

  /** The pools of driver d after a scan that read these device lists, one per fabric. */
  ghost function NextPools(prefix: string, pools: Pools, lists: map<int, DeviceList>, d: string): Pools {
    map p | p in pools.Keys + FedPools(lists, d) :: NextPool(prefix, pools, lists, d, p)
  }

  /** All drivers. Devices of drivers that are not managed are ignored. */
  ghost function Next(prefix: string, resources: Resources, lists: map<int, DeviceList>): Resources {
    map d | d in resources :: NextPools(prefix, resources[d], lists, d)
  }

  /** Lists that feed every pool alike lead to the same pools. */
  lemma SameFeedsSameNext(prefix: string, resources: Resources, lists: map<int, DeviceList>,
                          lists': map<int, DeviceList>)
    requires forall d, p :: Feed(lists, d, p) == Feed(lists', d, p)
    ensures Next(prefix, resources, lists) == Next(prefix, resources, lists')
  {
    forall d | d in resources
      ensures NextPools(prefix, resources[d], lists, d) == NextPools(prefix, resources[d], lists', d)
    {
      SameFeedsSamePools(prefix, resources[d], lists, lists', d);
    }
  }

  lemma SameFeedsSamePools(prefix: string, pools: Pools, lists: map<int, DeviceList>, lists': map<int, DeviceList>,
                           d: string)
    requires forall p :: Feed(lists, d, p) == Feed(lists', d, p)
    ensures NextPools(prefix, pools, lists, d) == NextPools(prefix, pools, lists', d)
  {
    var a, b := NextPools(prefix, pools, lists, d), NextPools(prefix, pools, lists', d);
    forall p
      ensures p in a <==> p in b
      ensures PoolAt(a, p) == PoolAt(b, p)
    {
      NextPoolsAt(prefix, pools, lists, d, p);
      NextPoolsAt(prefix, pools, lists', d, p);
    }
    MapsAgree(a, b);
  }

  /** NextPools pool by pool. */
  lemma NextPoolsAt(prefix: string, pools: Pools, lists: map<int, DeviceList>, d: string, p: string)
    ensures var next := NextPools(prefix, pools, lists, d);
            && (p in next <==> p in pools || Feed(lists, d, p).Some?)
            && PoolAt(next, p) == NextPool(prefix, pools, lists, d, p)
  {
    FedPoolsFeed(lists, d);
  }

  lemma FedPoolsFeed(lists: map<int, DeviceList>, d: string)
    ensures forall p :: p in FedPools(lists, d) <==> Feed(lists, d, p).Some?
  {
    forall p
      ensures p in FedPools(lists, d) <==> Feed(lists, d, p).Some?
    {
      if p in FedPools(lists, d) {
        var f, m :| f in lists && m in lists[f] && lists[f][m].driverName == d
            && PoolName(lists[f][m].k8sDeviceName, f) == p;
        assert Feeds(lists, d, p, f, m);
      }
    }
  }

  /** A scan of no fabric changes nothing. */
  lemma NextOfNothing(prefix: string, resources: Resources)
    ensures Next(prefix, resources, map[]) == resources
  {
    forall d | d in resources
      ensures NextPools(prefix, resources[d], map[], d) == resources[d]
    {
      forall p
        ensures p in NextPools(prefix, resources[d], map[], d) <==> p in resources[d]
        ensures PoolAt(NextPools(prefix, resources[d], map[], d), p) == PoolAt(resources[d], p)
      {
        NextPoolsAt(prefix, resources[d], map[], d, p);
      }
      MapsAgree(NextPools(prefix, resources[d], map[], d), resources[d]);
    }
  }

  /** A fabric whose devices are not read yet contributes nothing. */
  lemma NextWithEmptyList(prefix: string, resources: Resources, lists: map<int, DeviceList>, f: int)
    requires f !in lists && AllDistinct(lists)
    ensures Next(prefix, resources, lists[f := map[]]) == Next(prefix, resources, lists)
  {
    var more := lists[f := map[]];
    forall d, p
      ensures Feed(more, d, p) == Feed(lists, d, p)
    {
      if f', m :| Feeds(lists, d, p, f', m) {
        assert Feeds(more, d, p, f', m);
        FeedIsUnique(lists, d, p, f', m);
        FeedIsUnique(more, d, p, f', m);
      } else {
        assert forall f', m :: Feeds(more, d, p, f', m) ==> Feeds(lists, d, p, f', m);
      }
    }
    SameFeedsSameNext(prefix, resources, more, lists);
  }

  /** One more device leaves every other driver alone. */
  lemma NextWithOneMore(prefix: string, resources: Resources, lists: map<int, DeviceList>, more: map<int, DeviceList>,
                        f: int, m: string, device: DeviceRecord)
    requires f in lists && m !in lists[f] && more == lists[f := lists[f][m := device]] && AllDistinct(more)
    ensures var d, cur := device.driverName, Next(prefix, resources, lists);
            Next(prefix, resources, more) == if d in resources
                then cur[d := NextPools(prefix, resources[d], more, d)] else cur
  {
    forall d | d in resources && d != device.driverName
      ensures NextPools(prefix, resources[d], more, d) == NextPools(prefix, resources[d], lists, d)
    {
      OtherDriverWithOneMore(prefix, resources[d], lists, more, f, m, device, d);
    }
  }

  lemma OtherDriverWithOneMore(prefix: string, pools: Pools, lists: map<int, DeviceList>, more: map<int, DeviceList>,
                               f: int, m: string, device: DeviceRecord, d: string)
    requires f in lists && m !in lists[f] && more == lists[f := lists[f][m := device]] && AllDistinct(more)
    requires d != device.driverName
    ensures NextPools(prefix, pools, more, d) == NextPools(prefix, pools, lists, d)
  {
    var before, after := NextPools(prefix, pools, lists, d), NextPools(prefix, pools, more, d);
    forall p
      ensures p in after <==> p in before
      ensures PoolAt(after, p) == PoolAt(before, p)
    {
      OtherPoolWithOneMore(prefix, pools, lists, more, f, m, device, d, p);
    }
    MapsAgree(after, before);
  }

  /** One more device changes its own pool of its own driver, exactly as updatePool does. */
  lemma OwnDriverWithOneMore(prefix: string, pools: Pools, lists: map<int, DeviceList>, more: map<int, DeviceList>,
                             f: int, m: string, device: DeviceRecord)
    requires f in lists && m !in lists[f] && more == lists[f := lists[f][m := device]] && AllDistinct(more)
    ensures var d, p := device.driverName, PoolName(device.k8sDeviceName, f);
            var before, after := NextPools(prefix, pools, lists, d), NextPools(prefix, pools, more, d);
            && (p in before <==> p in pools) && PoolAt(before, p) == PoolAt(pools, p)
            && after == before[p := Updated(prefix, PoolAt(before, p), device, f)]
  {
    var d, p := device.driverName, PoolName(device.k8sDeviceName, f);
    var before, after := NextPools(prefix, pools, lists, d), NextPools(prefix, pools, more, d);
    OwnPoolWithOneMore(prefix, pools, lists, more, f, m, device);
    var goal := before[p := Updated(prefix, PoolAt(before, p), device, f)];
    forall p'
      ensures p' in after <==> p' in goal
      ensures PoolAt(after, p') == PoolAt(goal, p')
    {
      if p' != p {
        OtherPoolWithOneMore(prefix, pools, lists, more, f, m, device, d, p');
      }
    }
    MapsAgree(after, goal);
  }

  lemma MapsAgree(a: Pools, b: Pools)
    requires forall p :: p in a <==> p in b
    requires forall p :: PoolAt(a, p) == PoolAt(b, p)
    ensures a == b
  {
    forall p | p in a
      ensures a[p] == b[p]
    {
      assert PoolAt(a, p) == PoolAt(b, p);
    }
  }

  lemma OtherPoolWithOneMore(prefix: string, pools: Pools, lists: map<int, DeviceList>, more: map<int, DeviceList>,
                             f: int, m: string, device: DeviceRecord, d: string, p: string)
    requires f in lists && m !in lists[f] && more == lists[f := lists[f][m := device]] && AllDistinct(more)
    requires d != device.driverName || p != PoolName(device.k8sDeviceName, f)
    ensures p in NextPools(prefix, pools, more, d) <==> p in NextPools(prefix, pools, lists, d)
    ensures PoolAt(NextPools(prefix, pools, more, d), p) == PoolAt(NextPools(prefix, pools, lists, d), p)
  {
    FeedWithOneMore(lists, f, m, device, d, p);
    NextPoolsAt(prefix, pools, lists, d, p);
    NextPoolsAt(prefix, pools, more, d, p);
  }

  lemma OwnPoolWithOneMore(prefix: string, pools: Pools, lists: map<int, DeviceList>, more: map<int, DeviceList>,
                           f: int, m: string, device: DeviceRecord)
    requires f in lists && m !in lists[f] && more == lists[f := lists[f][m := device]] && AllDistinct(more)
    ensures var d, p := device.driverName, PoolName(device.k8sDeviceName, f);
            var before, after := NextPools(prefix, pools, lists, d), NextPools(prefix, pools, more, d);
            && (p in before <==> p in pools) && PoolAt(before, p) == PoolAt(pools, p)
            && p in after && after[p] == Updated(prefix, PoolAt(pools, p), device, f)
  {
    var d, p := device.driverName, PoolName(device.k8sDeviceName, f);
    FeedWithOneMore(lists, f, m, device, d, p);
    NextPoolsAt(prefix, pools, lists, d, p);
    NextPoolsAt(prefix, pools, more, d, p);
  }

  lemma FeedWithOneMore(lists: map<int, DeviceList>, f: int, m: string, device: DeviceRecord, d: string, p: string)
    requires f in lists && m !in lists[f]
    requires AllDistinct(lists[f := lists[f][m := device]])
    ensures var own := d == device.driverName && p == PoolName(device.k8sDeviceName, f);
            && Feed(lists[f := lists[f][m := device]], d, p) == (if own then Some((device, f)) else Feed(lists, d, p))
            && (own ==> Feed(lists, d, p) == None)
  {
    var more := lists[f := lists[f][m := device]];
    DistinctWithout(lists, f, m, device);
    assert forall f', m' :: Feeds(lists, d, p, f', m') ==> Feeds(more, d, p, f', m') && (f', m') != (f, m);
    if d == device.driverName && p == PoolName(device.k8sDeviceName, f) {
      assert Feeds(more, d, p, f, m);
      FeedIsUnique(more, d, p, f, m);
    } else if f', m' :| Feeds(lists, d, p, f', m') {
      FeedIsUnique(lists, d, p, f', m');
      FeedIsUnique(more, d, p, f', m');
    } else {
      assert forall f', m' :: Feeds(more, d, p, f', m') ==> Feeds(lists, d, p, f', m');
    }
  }

  lemma DistinctWithout(lists: map<int, DeviceList>, f: int, m: string, device: DeviceRecord)
    requires f in lists && m !in lists[f]
    requires AllDistinct(lists[f := lists[f][m := device]])
    ensures AllDistinct(lists)
  {
    var more := lists[f := lists[f][m := device]];
    forall f' | f' in lists
      ensures DistinctNames(lists[f'])
    {
      assert DistinctNames(more[f']);
      assert forall m' :: m' in lists[f'] ==> m' in more[f'] && more[f'][m'] == lists[f'][m'];
    }
  }
}
