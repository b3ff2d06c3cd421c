/** Finite sums over maps, independent of the order of summation. */
module Sums {

  ghost function Sum<K(!new)>(m: map<K, int>): int {
    if m == map[] then 0
    else
      assert exists k :: k in m.Keys;
      var k :| k in m.Keys;
      m[k] + Sum(m - {k})
  }

  /** Any entry may be summed first. */
  lemma {:induction false} SumSplit<K(!new)>(m: map<K, int>, k: K)
    requires k in m
    ensures Sum(m) == m[k] + Sum(m - {k})
    decreases |m|
  {
    var k' :| k' in m.Keys && Sum(m) == m[k'] + Sum(m - {k'});
    if k' != k {
      SumSplit(m - {k'}, k);
      SumSplit(m - {k}, k');
      assert m - {k'} - {k} == m - {k} - {k'};
    }
  }

  /** Maps that match entry by entry along a bijection of their keys have the same sum. */
  lemma {:induction false} SumAlongBijection<A(!new), B(!new)>(a: map<A, int>, b: map<B, int>, to: map<A, B>,
                                               back: map<B, A>)
    requires a.Keys <= to.Keys && b.Keys <= back.Keys
    requires forall x :: x in a ==> to[x] in b && b[to[x]] == a[x] && back[to[x]] == x
    requires forall y :: y in b ==> back[y] in a && to[back[y]] == y
    ensures Sum(a) == Sum(b)
    decreases |a|
  {
    if a == map[] {
      assert b.Keys == {};
    } else {
      var x :| x in a.Keys;
      SumAlongBijection(a - {x}, b - {to[x]}, to, back);
      SumSplit(a, x);
      SumSplit(b, to[x]);
    }
  }
}

/** A scan publishes every reported device once, however many machines share a fabric. */
module Conservation {
  import opened Text
  import opened Naming
  import opened Pools
  import opened Runs
  import opened Sums

  ghost predicate OfFabrics(p: string, fabrics: set<int>) {
    match ParsePoolName(p)
    case Some(parsed) => parsed.1 in fabrics
    case None => false
  }

  function DeviceCount(slices: seq<Slice>): nat {
    if slices == [] then 0 else |slices[0].devices| + DeviceCount(slices[1..])
  }

  ghost function PoolKeys(resources: Resources): (keys: set<(string, string)>)
    ensures forall dp :: dp in keys <==> dp.0 in resources && dp.1 in resources[dp.0]
  {
    var keys := set d, p | d in resources && p in resources[d] :: (d, p);
    assert forall dp: (string, string) :: dp.0 in resources && dp.1 in resources[dp.0] ==> (dp.0, dp.1) in keys;
    keys
  }

  /** The number of devices in every pool, of any driver, that belongs to one of the fabrics. */
  ghost function PublishedCounts(resources: Resources, fabrics: set<int>): map<(string, string), int> {
    map dp | dp in PoolKeys(resources) && OfFabrics(dp.1, fabrics) :: DeviceCount(resources[dp.0][dp.1].slices)
  }

  /** All pairs of a fabric and one of the first n device infos. */
  ghost function ReportKeys(fabrics: set<int>, n: nat): (keys: set<(int, int)>)
    ensures forall x :: x in keys <==> x.0 in fabrics && 0 <= x.1 < n
  {
    if n == 0 then {}
    else
      var last := set f | f in fabrics :: (f, n - 1);
      assert forall f :: f in fabrics ==> (f, n - 1) in last;
      ReportKeys(fabrics, n - 1) + last
  }

  /** The number of devices reported for a fabric and device info. */
  function Reported(infos: seq<DeviceInfo>, lists: map<int, DeviceList>, f: int, i: int): int {
    if f in lists && 0 <= i < |infos| && infos[i].cdiModelName in lists[f]
    then Size(lists[f][infos[i].cdiModelName].available) else 0
  }

  ghost function ReportedCounts(infos: seq<DeviceInfo>, lists: map<int, DeviceList>): map<(int, int), int> {
    map x | x in ReportKeys(lists.Keys, |infos|) :: Reported(infos, lists, x.0, x.1)
  }

  /** Every report has its pool, with that many devices. */
  ghost predicate HoldsReport(resources: Resources, infos: seq<DeviceInfo>, lists: map<int, DeviceList>, f: int, i: int)
    requires 0 <= i < |infos|
  {
    var d, p := infos[i].driverName, PoolName(infos[i].k8sDeviceName, f);
    d in resources && p in resources[d] && DeviceCount(resources[d][p].slices) == Reported(infos, lists, f, i)
  }

  lemma {:induction false} ScannedPool(prefix: string, infos: seq<DeviceInfo>, trace: seq<Event>, last: Event, i: nat,
                                       f: int)
    requires ValidInfos(infos) && ValidTrace(infos, trace + [last]) && i < |infos|
    requires last.Scanned? && f in last.lists && ValidLists(infos, last.lists)
    ensures HoldsReport(Run(prefix, infos, trace + [last]), infos, last.lists, f, i)
  {
    var all := trace + [last];
    assert all[..|all| - 1] == trace;
    var model := infos[i].cdiModelName;
    assert Observed(all, model, f) == Observed(trace, model, f) + [last.lists[f][model].available];
    PoolHistory(prefix, infos, all, i, f);
    assert DeviceCount(Run(prefix, infos, all)[infos[i].driverName][PoolName(infos[i].k8sDeviceName, f)].slices)
        == Reported(infos, last.lists, f, i);
  }

  /** Which pool the report for fabric x.0 and device info x.1 ends up in. */
  function PoolOfReport(infos: seq<DeviceInfo>, x: (int, int)): (string, string) {
    if 0 <= x.1 < |infos| then (infos[x.1].driverName, PoolName(infos[x.1].k8sDeviceName, x.0)) else ("", "")
  }

  /** The fabric and device info a pool was reported under. */
  ghost function ReportOfPool(infos: seq<DeviceInfo>, dp: (string, string)): (int, int) {
    match ParsePoolName(dp.1)
    case Some(parsed) => (parsed.1, InfoNamed(infos, parsed.0))
    case None => (0, 0)
  }

  ghost function InfoNamed(infos: seq<DeviceInfo>, k: string): int {
    if exists i :: 0 <= i < |infos| && infos[i].k8sDeviceName == k then
      var i :| 0 <= i < |infos| && infos[i].k8sDeviceName == k; i
    else -1
  }

  lemma {:induction false} ReportRoundTrip(infos: seq<DeviceInfo>, f: int, i: int)
    requires ValidInfos(infos) && 0 <= i < |infos|
    ensures ReportOfPool(infos, PoolOfReport(infos, (f, i))) == (f, i)
  {
    var k := infos[i].k8sDeviceName;
    PoolNameParses(PoolName(k, f), k, f);
    assert InfoNamed(infos, k) == i;
  }

  lemma {:induction false} PoolRoundTrip(prefix: string, infos: seq<DeviceInfo>, trace: seq<Event>, fabrics: set<int>,
                                         d: string, p: string)
    requires ValidInfos(infos) && ValidTrace(infos, trace) && d in Drivers(infos)
    requires p in Run(prefix, infos, trace)[d] && OfFabrics(p, fabrics)
    ensures RoundTrips(infos, fabrics, d, p)
  {
    var i, f := OnlyConfiguredPools(prefix, infos, trace, d, p);
    PoolNameParses(p, infos[i].k8sDeviceName, f);
    ReportRoundTrip(infos, f, i);
  }

  ghost predicate RoundTrips(infos: seq<DeviceInfo>, fabrics: set<int>, d: string, p: string) {
    var x := ReportOfPool(infos, (d, p));
    x.0 in fabrics && 0 <= x.1 < |infos| && PoolOfReport(infos, x) == (d, p)
  }

  lemma {:induction false} CountsAgree(resources: Resources, infos: seq<DeviceInfo>, lists: map<int, DeviceList>)
    requires ValidInfos(infos)
    requires forall f, i :: f in lists && 0 <= i < |infos| ==> HoldsReport(resources, infos, lists, f, i)
    requires forall d, p :: d in resources && p in resources[d] && OfFabrics(p, lists.Keys) ==>
             RoundTrips(infos, lists.Keys, d, p)
    ensures Sum(PublishedCounts(resources, lists.Keys)) == Sum(ReportedCounts(infos, lists))
  {
    var published, reported := PublishedCounts(resources, lists.Keys), ReportedCounts(infos, lists);
    forall x | x in reported
      ensures PoolOfReport(infos, x) in published && published[PoolOfReport(infos, x)] == reported[x]
      ensures ReportOfPool(infos, PoolOfReport(infos, x)) == x
    {
      assert HoldsReport(resources, infos, lists, x.0, x.1);
      PoolNameParses(PoolName(infos[x.1].k8sDeviceName, x.0), infos[x.1].k8sDeviceName, x.0);
      ReportRoundTrip(infos, x.0, x.1);
    }
    forall dp | dp in published
      ensures ReportOfPool(infos, dp) in reported && PoolOfReport(infos, ReportOfPool(infos, dp)) == dp
    {
      assert RoundTrips(infos, lists.Keys, dp.0, dp.1);
    }
    SumAlongBijection(reported, published, map x | x in reported :: PoolOfReport(infos, x),
                      map dp | dp in published :: ReportOfPool(infos, dp));
  }

  /** After a successful scan at any point of any run, the devices in the pools of the scanned fabrics add up to what
      was reported, summed over distinct fabrics and device infos. */
  lemma {:induction false} DevicesConserved(prefix: string, infos: seq<DeviceInfo>, trace: seq<Event>, last: Event)
    requires ValidInfos(infos) && ValidTrace(infos, trace + [last])
    requires last.Scanned? && ValidLists(infos, last.lists)
    ensures Sum(PublishedCounts(Run(prefix, infos, trace + [last]), last.lists.Keys)) == Sum(ReportedCounts(infos, last.lists))
  {
    var resources := Run(prefix, infos, trace + [last]);
    forall f, i | f in last.lists && 0 <= i < |infos|
      ensures HoldsReport(resources, infos, last.lists, f, i)
    {
      ScannedPool(prefix, infos, trace, last, i, f);
    }
    forall d, p | d in resources && p in resources[d] && OfFabrics(p, last.lists.Keys)
      ensures RoundTrips(infos, last.lists.Keys, d, p)
    {
      PoolRoundTrip(prefix, infos, trace + [last], last.lists.Keys, d, p);
    }
    CountsAgree(resources, infos, last.lists);
  }

  /** Pools of fabrics a scan did not see stay as they are. */
  lemma {:induction false} OtherFabricsUntouched(prefix: string, infos: seq<DeviceInfo>, trace: seq<Event>,
                                                 lists: map<int, DeviceList>, d: string, p: string)
    requires ValidInfos(infos) && ValidTrace(infos, trace) && ValidLists(infos, lists)
    requires d in Drivers(infos) && !OfFabrics(p, lists.Keys)
    ensures var before, after := Run(prefix, infos, trace)[d], Run(prefix, infos, trace + [Scanned(lists)])[d];
            (p in after <==> p in before) && PoolAt(after, p) == PoolAt(before, p)
  {
    var all := trace + [Scanned(lists)];
    assert all[..|all| - 1] == trace;
    NextPoolsAt(prefix, Run(prefix, infos, trace)[d], lists, d, p);
    if f, m :| Feeds(lists, d, p, f, m) {
      PoolNameParses(p, lists[f][m].k8sDeviceName, f);
    }
  }
}
