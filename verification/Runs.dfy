/** Whole runs of the manager: what its pools are after any sequence of scans, and what its
    controllers have been told on the way. */
module Runs {
  import opened Text
  import opened Naming
  import opened Pools

  /** How a scan ended for the pools: it read one device list per fabric, or failed before using any. */
  datatype Event = Scanned(lists: map<int, DeviceList>) | ReadFailed

  ghost predicate FromInfo(info: DeviceInfo, device: DeviceRecord) {
    device.k8sDeviceName == info.k8sDeviceName && device.driverName == info.driverName
        && device.draAttributes == info.draAttributes
  }

  /** The list holds exactly one device per device info, under its model name. */
  ghost predicate FromInfos(infos: seq<DeviceInfo>, list: DeviceList) {
    && (forall i :: 0 <= i < |infos| ==>
          infos[i].cdiModelName in list && FromInfo(infos[i], list[infos[i].cdiModelName]))
    && (forall m :: m in list ==> exists i :: 0 <= i < |infos| && infos[i].cdiModelName == m)
  }

  ghost predicate ValidLists(infos: seq<DeviceInfo>, lists: map<int, DeviceList>) {
    forall f :: f in lists ==> FromInfos(infos, lists[f])
  }

  ghost predicate ValidTrace(infos: seq<DeviceInfo>, trace: seq<Event>) {
    forall i :: 0 <= i < |trace| && trace[i].Scanned? ==> ValidLists(infos, trace[i].lists)
  }

  lemma {:induction false} ValidListsAreDistinct(infos: seq<DeviceInfo>, lists: map<int, DeviceList>)
    requires ValidInfos(infos) && ValidLists(infos, lists)
    ensures AllDistinct(lists)
  {
    forall f, m, m' | f in lists && m in lists[f] && m' in lists[f] && m != m'
      ensures lists[f][m].k8sDeviceName != lists[f][m'].k8sDeviceName
    {
      var i :| 0 <= i < |infos| && infos[i].cdiModelName == m;
      var j :| 0 <= j < |infos| && infos[j].cdiModelName == m';
      assert FromInfo(infos[i], lists[f][m]) && FromInfo(infos[j], lists[f][m']);
      assert i < j || j < i;
    }
  }

  function Drivers(infos: seq<DeviceInfo>): set<string> {
    set i | 0 <= i < |infos| :: infos[i].driverName
  }

  /** initDriverResources: every configured driver, without pools. */
  function InitResources(infos: seq<DeviceInfo>): Resources {
    map d | d in Drivers(infos) :: map[]
  }

  ghost function After(prefix: string, resources: Resources, event: Event): Resources {
    match event
    case Scanned(lists) => Next(prefix, resources, lists)
    case ReadFailed => resources
  }

  /** The manager's pools after a run. */
  ghost function Run(prefix: string, infos: seq<DeviceInfo>, trace: seq<Event>): (r: Resources)
    ensures r.Keys == Drivers(infos)
  {
    if trace == [] then InitResources(infos)
    else After(prefix, Run(prefix, infos, trace[..|trace| - 1]), trace[|trace| - 1])
  }

  // The counts a pool has seen, and its generation.

  /** The counts reported for one model in one fabric over a run; scans that skipped the fabric leave no entry. */
  function Observed(trace: seq<Event>, model: string, f: int): seq<int> {
    if trace == [] then []
    else
      var before := Observed(trace[..|trace| - 1], model, f);
      match trace[|trace| - 1]
      case Scanned(lists) => if f in lists && model in lists[f] then before + [lists[f][model].available] else before
      case ReadFailed => before
  }

  /** How often a count differed from the number of devices the previous one published. */
  function Bumps(h: seq<int>): nat {
    if |h| <= 1 then 0
    else Bumps(h[..|h| - 1]) + if Size(h[|h| - 2]) != h[|h| - 1] then 1 else 0
  }

  /** How often two consecutive counts differed. */
  function Changes(h: seq<int>): nat {
    if |h| <= 1 then 0
    else Changes(h[..|h| - 1]) + if h[|h| - 2] != h[|h| - 1] then 1 else 0
  }

  lemma {:induction false} BumpsAreChanges(h: seq<int>)
    requires forall i :: 0 <= i < |h| ==> h[i] >= 0
    ensures Bumps(h) == Changes(h)
  {
    if |h| > 1 {
      BumpsAreChanges(h[..|h| - 1]);
    }
  }

  /** A bump is a change unless a negative count is followed by zero or by itself. */
  predicate Faithful(previous: int, count: int) {
    previous >= 0 || (count != 0 && count != previous)
  }

  ghost predicate CountsChanges(h: seq<int>) {
    forall n :: 0 <= n <= |h| ==> Bumps(h[..n]) == Changes(h[..n])
  }

  ghost predicate AllFaithful(h: seq<int>) {
    forall i :: 0 < i < |h| ==> Faithful(h[i - 1], h[i])
  }

  /** Exactly when the bumps count the changes, all along a history. */
  lemma {:induction false} BumpsCountChangesIff(h: seq<int>)
    ensures CountsChanges(h) <==> AllFaithful(h)
  {
    if |h| > 1 {
      var n := |h| - 1;
      var before := h[..n];
      BumpsCountChangesIff(before);
      assert forall i :: 0 <= i < n ==> before[i] == h[i];
      assert forall k :: 0 <= k <= n ==> before[..k] == h[..k];
      assert h[..n + 1] == h;
      assert CountsChanges(h) ==> Bumps(before) == Changes(before);
      assert CountsChanges(h) <==> CountsChanges(before) && Bumps(h) == Changes(h);
      assert AllFaithful(h) <==> AllFaithful(before) && Faithful(h[n - 1], h[n]);
      assert CountsChanges(before) ==> Bumps(h[..n]) == Changes(h[..n]);
    } else {
      assert forall n :: 0 <= n <= |h| ==> |h[..n]| <= 1;
    }
  }

  /** A negative count that never changes bumps the generation at every scan. */
  lemma NegativeCountBumps()
    ensures Bumps([-1, -1]) == 1 && Changes([-1, -1]) == 0
  {
    assert [-1, -1][..1] == [-1];
  }

  lemma {:induction false} BumpsBound(h: seq<int>)
    ensures h != [] ==> Bumps(h) < |h|
  {
    if |h| > 1 {
      BumpsBound(h[..|h| - 1]);
    }
  }

  lemma {:induction false} ObservedBound(trace: seq<Event>, model: string, f: int)
    ensures |Observed(trace, model, f)| <= |trace|
  {
    if trace != [] {
      ObservedBound(trace[..|trace| - 1], model, f);
    }
  }

  /** A stored pool, from the counts seen: absent before the first one; afterwards what generatePool builds from the
      device info and the last count, at generation one plus the number of bumps. */
  ghost predicate PoolMatches(prefix: string, pools: Pools, info: DeviceInfo, f: int, h: seq<int>) {
    var p := PoolName(info.k8sDeviceName, f);
    && (h == [] <==> p !in pools)
    && (h != [] ==> pools[p] == PoolOf(prefix, Device(info, h[|h| - 1]), f, 1 + Bumps(h)))
  }

  function Device(info: DeviceInfo, available: int): DeviceRecord {
    DeviceRecord(info.k8sDeviceName, info.driverName, info.draAttributes, available)
  }

  /** The device of an info is what feeds its pool, when the fabric was scanned. */
  lemma {:induction false} FeedOfInfo(infos: seq<DeviceInfo>, lists: map<int, DeviceList>, i: nat, f: int)
    requires ValidInfos(infos) && ValidLists(infos, lists) && i < |infos|
    ensures Feed(lists, infos[i].driverName, PoolName(infos[i].k8sDeviceName, f))
         == if f in lists then Some((lists[f][infos[i].cdiModelName], f)) else None
  {
    var d, p := infos[i].driverName, PoolName(infos[i].k8sDeviceName, f);
    ValidListsAreDistinct(infos, lists);
    if f in lists {
      assert Feeds(lists, d, p, f, infos[i].cdiModelName);
      FeedIsUnique(lists, d, p, f, infos[i].cdiModelName);
    } else {
      forall f', m | Feeds(lists, d, p, f', m)
        ensures false
      {
        PoolNameInjective(lists[f'][m].k8sDeviceName, f', infos[i].k8sDeviceName, f);
      }
    }
  }

  lemma {:induction false} PoolMatchesNext(prefix: string, infos: seq<DeviceInfo>, pools: Pools,
                                           lists: map<int, DeviceList>, i: nat, f: int, h: seq<int>, h': seq<int>)
    requires ValidInfos(infos) && ValidLists(infos, lists) && i < |infos|
    requires h' == if f in lists then h + [lists[f][infos[i].cdiModelName].available] else h
    requires PoolMatches(prefix, pools, infos[i], f, h)
    ensures PoolMatches(prefix, NextPools(prefix, pools, lists, infos[i].driverName), infos[i], f, h')
  {
    var info := infos[i];
    FeedOfInfo(infos, lists, i, f);
    NextPoolsAt(prefix, pools, lists, info.driverName, PoolName(info.k8sDeviceName, f));
    assert f in lists ==> FromInfo(info, lists[f][info.cdiModelName]);
    PoolMatchesStep(prefix, pools, NextPools(prefix, pools, lists, info.driverName), info,
                    if f in lists then Some(lists[f][info.cdiModelName]) else None, f, h, h');
  }

  lemma {:induction false} PoolMatchesStep(prefix: string, pools: Pools, next: Pools, info: DeviceInfo,
                                           device: Option<DeviceRecord>, f: int, h: seq<int>, h': seq<int>)
    requires PoolMatches(prefix, pools, info, f, h)
    requires device.Some? ==> FromInfo(info, device.value)
    requires var p := PoolName(info.k8sDeviceName, f);
             && (p in next <==> p in pools || device.Some?)
             && PoolAt(next, p) == if device.Some? then Updated(prefix, PoolAt(pools, p), device.value, f)
                 else PoolAt(pools, p)
    requires h' == if device.Some? then h + [device.value.available] else h
    ensures PoolMatches(prefix, next, info, f, h')
  {
    if device.Some? {
      UpdatedMatches(prefix, PoolAt(pools, PoolName(info.k8sDeviceName, f)), info, device.value, f, h);
    }
  }

  lemma {:induction false} UpdatedMatches(prefix: string, pool: Pool, info: DeviceInfo, device: DeviceRecord, f: int,
                                          h: seq<int>)
    requires FromInfo(info, device)
    requires pool == if h == [] then ZERO_POOL else PoolOf(prefix, Device(info, h[|h| - 1]), f, 1 + Bumps(h))
    ensures Updated(prefix, pool, device, f)
         == PoolOf(prefix, Device(info, device.available), f, 1 + Bumps(h + [device.available]))
  {
    assert device == Device(info, device.available);
    if h != [] {
      assert (h + [device.available])[..|h|] == h;
      CountComparisonIsSound(prefix, Device(info, h[|h| - 1]), device, f, 1 + Bumps(h));
    }
  }

  /** Main result on pools. After any run, the pool of every device info and fabric is determined by the counts
      observed for it alone. */
  lemma {:induction false} PoolHistory(prefix: string, infos: seq<DeviceInfo>, trace: seq<Event>, i: nat, f: int)
    requires ValidInfos(infos) && ValidTrace(infos, trace) && i < |infos|
    ensures PoolMatches(prefix, Run(prefix, infos, trace)[infos[i].driverName], infos[i], f,
                        Observed(trace, infos[i].cdiModelName, f))
  {
    if trace != [] {
      var before, last := trace[..|trace| - 1], trace[|trace| - 1];
      PoolHistory(prefix, infos, before, i, f);
      if last.Scanned? {
        PoolMatchesNext(prefix, infos, Run(prefix, infos, before)[infos[i].driverName], last.lists, i, f,
                        Observed(before, infos[i].cdiModelName, f), Observed(trace, infos[i].cdiModelName, f));
      }
    }
  }

  /** The fabric and device info a pool name stands for. */
  ghost predicate Configured(infos: seq<DeviceInfo>, d: string, p: string, i: nat, f: int) {
    i < |infos| && infos[i].driverName == d && p == PoolName(infos[i].k8sDeviceName, f)
  }

  /** No run ever creates any other pool. */
  lemma {:induction false} OnlyConfiguredPools(prefix: string, infos: seq<DeviceInfo>, trace: seq<Event>, d: string,
                                               p: string)
    returns (i: nat, f: int)
    requires ValidInfos(infos) && ValidTrace(infos, trace)
    requires d in Drivers(infos) && p in Run(prefix, infos, trace)[d]
    ensures Configured(infos, d, p, i, f) && Observed(trace, infos[i].cdiModelName, f) != []
  {
    var before, last := trace[..|trace| - 1], trace[|trace| - 1];
    var pools := Run(prefix, infos, before)[d];
    if p in pools {
      i, f := OnlyConfiguredPools(prefix, infos, before, d, p);
    } else {
      NextPoolsAt(prefix, pools, last.lists, d, p);
      var m;
      f, m :| Feeds(last.lists, d, p, f, m);
      i :| 0 <= i < |infos| && infos[i].cdiModelName == m;
      assert FromInfo(infos[i], last.lists[f][m]);
    }
  }

  /** Generations start at one and count at most one per scan, so an int64 holds them for 2^63 - 1 scans. */
  lemma {:induction false} GenerationBounds(prefix: string, infos: seq<DeviceInfo>, trace: seq<Event>, d: string,
                                            p: string)
    requires ValidInfos(infos) && ValidTrace(infos, trace)
    requires d in Drivers(infos) && p in Run(prefix, infos, trace)[d]
    ensures 1 <= Run(prefix, infos, trace)[d][p].generation <= |trace|
    ensures |Run(prefix, infos, trace)[d][p].slices| == 1
  {
    var i, f := OnlyConfiguredPools(prefix, infos, trace, d, p);
    PoolHistory(prefix, infos, trace, i, f);
    BumpsBound(Observed(trace, infos[i].cdiModelName, f));
    ObservedBound(trace, infos[i].cdiModelName, f);
  }

  /** One scan keeps a pool or raises its generation by one. */
  lemma PoolStep(prefix: string, pools: Pools, lists: map<int, DeviceList>, d: string, p: string)
    requires p in pools && |pools[p].slices| == 1
    ensures var next := NextPools(prefix, pools, lists, d);
            p in next && (next[p] == pools[p] || next[p].generation == pools[p].generation + 1)
  {
    NextPoolsAt(prefix, pools, lists, d, p);
  }

  lemma {:induction false} RunAfter(prefix: string, infos: seq<DeviceInfo>, trace: seq<Event>, e: Event)
    requires ValidTrace(infos, trace) && (e.Scanned? ==> ValidLists(infos, e.lists))
    ensures ValidTrace(infos, trace + [e])
    ensures Run(prefix, infos, trace + [e]) == After(prefix, Run(prefix, infos, trace), e)
  {
    var all := trace + [e];
    assert all[..|all| - 1] == trace && all[|all| - 1] == e;
  }

  lemma {:induction false} RunStep(prefix: string, infos: seq<DeviceInfo>, trace: seq<Event>, e: Event, d: string,
                                   p: string)
    requires ValidInfos(infos) && ValidTrace(infos, trace) && (e.Scanned? ==> ValidLists(infos, e.lists))
    requires d in Drivers(infos) && p in Run(prefix, infos, trace)[d]
    ensures var before, after := Run(prefix, infos, trace)[d], Run(prefix, infos, trace + [e])[d];
            p in after && (after[p] == before[p] || after[p].generation == before[p].generation + 1)
  {
    RunAfter(prefix, infos, trace, e);
    GenerationBounds(prefix, infos, trace, d, p);
    if e.Scanned? {
      PoolStep(prefix, Run(prefix, infos, trace)[d], e.lists, d, p);
    }
  }

  /** From any point of a run to any later one: pools stay, generations never fall, and a generation that stayed the
      same means the pool did not change at all. */
  lemma {:induction false} PoolsProgress(prefix: string, infos: seq<DeviceInfo>, trace: seq<Event>, n: nat, d: string,
                                         p: string)
    requires ValidInfos(infos) && ValidTrace(infos, trace) && n <= |trace|
    requires d in Drivers(infos) && p in Run(prefix, infos, trace[..n])[d]
    ensures var earlier, later := Run(prefix, infos, trace[..n])[d], Run(prefix, infos, trace)[d];
            && p in later && earlier[p].generation <= later[p].generation
            && (earlier[p].generation == later[p].generation ==> earlier[p] == later[p])
    decreases |trace|
  {
    if n == |trace| {
      assert trace[..n] == trace;
    } else {
      var before, last := trace[..|trace| - 1], trace[|trace| - 1];
      assert before + [last] == trace && before[..n] == trace[..n];
      PoolsProgress(prefix, infos, before, n, d, p);
      RunStep(prefix, infos, before, last, d, p);
    }
  }

  // What the controllers are told.

  /** The snapshots handed to the controller of driver d: one at its start, one more at each scan that changed
      one of its pools. */
  ghost function Sent(prefix: string, infos: seq<DeviceInfo>, trace: seq<Event>, d: string): (s: seq<Pools>)
    requires d in Drivers(infos)
    ensures s != []
  {
    if trace == [] then [InitResources(infos)[d]]
    else
      var before := trace[..|trace| - 1];
      var now := Run(prefix, infos, trace)[d];
      Sent(prefix, infos, before, d) + if now != Run(prefix, infos, before)[d] then [now] else []
  }

  /** One more scan: the pools follow, and the controller is told if and only if its pools changed. */
  lemma {:induction false} SentAfter(prefix: string, infos: seq<DeviceInfo>, trace: seq<Event>, e: Event, d: string)
    requires d in Drivers(infos)
    ensures var before, now := Run(prefix, infos, trace), After(prefix, Run(prefix, infos, trace), e);
            && Run(prefix, infos, trace + [e]) == now
            && Sent(prefix, infos, trace + [e], d) == Sent(prefix, infos, trace, d) + if now[d] != before[d]
                then [now[d]] else []
  {
    var all := trace + [e];
    assert all[..|all| - 1] == trace && all[|all| - 1] == e;
  }

  /** The last snapshot is the driver's pools, no snapshot repeats the one before it, and every pool ever announced
      is still held. */
  ghost predicate Coherent(sent: seq<Pools>, pools: Pools) {
    && sent != [] && sent[|sent| - 1] == pools
    && (forall j :: 0 < j < |sent| ==> sent[j - 1] != sent[j])
    && (forall j :: 0 <= j < |sent| ==> sent[j].Keys <= pools.Keys)
  }

  lemma CoherentExtends(sent: seq<Pools>, pools: Pools, now: Pools)
    requires Coherent(sent, pools) && pools.Keys <= now.Keys
    ensures Coherent(sent + if now != pools then [now] else [], now)
  {
    if now != pools {
      var longer := sent + [now];
      assert forall j :: 0 <= j < |sent| ==> longer[j] == sent[j];
    }
  }

  /** Whatever the run, every controller is up to date, was updated only when something changed, and was never told
      of a pool that was given up later. */
  lemma {:induction false} PublicationCoherent(prefix: string, infos: seq<DeviceInfo>, trace: seq<Event>, d: string)
    requires d in Drivers(infos)
    ensures Coherent(Sent(prefix, infos, trace, d), Run(prefix, infos, trace)[d])
    ensures |Sent(prefix, infos, trace, d)| <= |trace| + 1
  {
    if trace != [] {
      var before := trace[..|trace| - 1];
      PublicationCoherent(prefix, infos, before, d);
      PoolsStay(prefix, infos, trace, d);
      CoherentExtends(Sent(prefix, infos, before, d), Run(prefix, infos, before)[d], Run(prefix, infos, trace)[d]);
    }
  }

  lemma {:induction false} PoolsStay(prefix: string, infos: seq<DeviceInfo>, trace: seq<Event>, d: string)
    requires trace != [] && d in Drivers(infos)
    ensures Run(prefix, infos, trace[..|trace| - 1])[d].Keys <= Run(prefix, infos, trace)[d].Keys
  {
    var pools, last := Run(prefix, infos, trace[..|trace| - 1])[d], trace[|trace| - 1];
    if last.Scanned? {
      forall p | p in pools
        ensures p in NextPools(prefix, pools, last.lists, d)
      {
        NextPoolsAt(prefix, pools, last.lists, d, p);
      }
    }
  }
}
