/** How far the reading phase has come: which fabrics and node groups the first machines cover, what has
    been read for them, and how many requests that took. */
module Batches {
  import opened Text
  import opened Pools
  import opened Scans
  import opened ScanLaws

  /** a times k requests. */
  function Times(a: nat, k: nat): nat {
    if a == 0 then 0 else Times(a - 1, k) + k
  }

  lemma {:induction false} TimesIsProduct(a: nat, k: nat)
    ensures Times(a, k) == a * k
  {
    if a > 0 {
      TimesIsProduct(a - 1, k);
      assert a * k == (a - 1) * k + k;
    }
  }

  lemma {:induction false} TimesGrows(a: nat, b: nat, k: nat)
    requires a < b
    ensures Times(a + 1, k) == Times(a, k) + k <= Times(b, k)
  {
    if a + 1 < b {
      TimesGrows(a, b - 1, k);
    }
  }

  /** The first i machines' fabrics have been read, each with one request per device info. */
  ghost predicate FabricsUpTo(infos: seq<DeviceInfo>, w: World, recs: seq<MachineRec>, i: nat,
                              read: map<int, ViewList>, queries: int)
    requires i <= |recs|
  {
    read.Keys == Fabrics(recs[..i]) && queries == Times(|read.Keys|, |infos|) && AllFabricsRead(infos, w, recs, read)
  }

  ghost predicate AllFabricsRead(infos: seq<DeviceInfo>, w: World, recs: seq<MachineRec>, read: map<int, ViewList>) {
    forall f :: f in read ==> FabricList(infos, w, recs, f) == Some(read[f])
  }

  /** The first i machines' node groups have been read, each with one request per model. */
  ghost predicate GroupsUpTo(infos: seq<DeviceInfo>, w: World, recs: seq<MachineRec>, i: nat,
                             read: map<string, map<string, Limit>>, queries: int)
    requires i <= |recs|
  {
    read.Keys == NodeGroups(recs[..i]) && queries == Times(|read.Keys|, |Models(infos)|)
        && AllGroupsRead(infos, w, recs, read)
  }

  ghost predicate AllGroupsRead(infos: seq<DeviceInfo>, w: World, recs: seq<MachineRec>,
                                read: map<string, map<string, Limit>>) {
    forall g :: g in read ==> g != "" && GroupLimits(infos, w, recs, g) == Some(read[g])
  }

  lemma OneMoreFabricRead(infos: seq<DeviceInfo>, w: World, recs: seq<MachineRec>, read: map<int, ViewList>, f: int,
                          list: ViewList)
    requires AllFabricsRead(infos, w, recs, read) && FabricList(infos, w, recs, f) == Some(list)
    ensures AllFabricsRead(infos, w, recs, read[f := list])
  {
  }

  lemma OneMoreGroupRead(infos: seq<DeviceInfo>, w: World, recs: seq<MachineRec>,
                         read: map<string, map<string, Limit>>, g: string, limits: map<string, Limit>)
    requires g != "" && AllGroupsRead(infos, w, recs, read) && GroupLimits(infos, w, recs, g) == Some(limits)
    ensures AllGroupsRead(infos, w, recs, read[g := limits])
  {
  }

  lemma CountOneMore<K, V>(read: map<K, V>, key: K, value: V, k: nat)
    requires key !in read
    ensures read[key := value].Keys == read.Keys + {key}
    ensures Times(|read[key := value].Keys|, k) == Times(|read.Keys|, k) + k
  {
    assert read[key := value].Keys == read.Keys + {key};
  }

  lemma FabricAlreadyRead(infos: seq<DeviceInfo>, w: World, recs: seq<MachineRec>, i: nat, read: map<int, ViewList>,
                          queries: int)
    requires i < |recs| && recs[i].fabricID.Some? && recs[i].fabricID.value in read
    requires FabricsUpTo(infos, w, recs, i, read, queries)
    ensures FabricsUpTo(infos, w, recs, i + 1, read, queries)
  {
    FabricsOneMore(recs, i, recs[i].fabricID.value);
  }

  /** The i-th machine speaks for a fabric not read before. */
  lemma FabricFirstRead(infos: seq<DeviceInfo>, w: World, recs: seq<MachineRec>, i: nat, read: map<int, ViewList>,
                        queries: int)
    requires i < |recs| && recs[i].fabricID.Some? && recs[i].fabricID.value !in read
    requires FabricsUpTo(infos, w, recs, i, read, queries)
    ensures FabricList(infos, w, recs, recs[i].fabricID.value) == ReadList(infos, w, recs[i].machineUUID)
    ensures queries + |infos| <= Times(|Fabrics(recs)|, |infos|)
  {
    FabricsOneMore(recs, i, recs[i].fabricID.value);
    TimesGrows(|read.Keys|, |Fabrics(recs)|, |infos|);
  }

  lemma FabricJustRead(infos: seq<DeviceInfo>, w: World, recs: seq<MachineRec>, i: nat, read: map<int, ViewList>,
                       queries: int, list: ViewList)
    requires i < |recs| && recs[i].fabricID.Some? && recs[i].fabricID.value !in read
    requires FabricsUpTo(infos, w, recs, i, read, queries)
    requires FabricList(infos, w, recs, recs[i].fabricID.value) == Some(list)
    ensures FabricsUpTo(infos, w, recs, i + 1, read[recs[i].fabricID.value := list], queries + |infos|)
  {
    FabricsOneMore(recs, i, recs[i].fabricID.value);
    CountOneMore(read, recs[i].fabricID.value, list, |infos|);
    OneMoreFabricRead(infos, w, recs, read, recs[i].fabricID.value, list);
  }

  lemma GroupAlreadyRead(infos: seq<DeviceInfo>, w: World, recs: seq<MachineRec>, i: nat,
                         read: map<string, map<string, Limit>>, queries: int)
    requires i < |recs| && (recs[i].nodeGroupUUID == "" || recs[i].nodeGroupUUID in read)
    requires GroupsUpTo(infos, w, recs, i, read, queries)
    ensures GroupsUpTo(infos, w, recs, i + 1, read, queries)
  {
    GroupsOneMore(recs, i);
  }

  /** The i-th machine speaks for a node group not read before. */
  lemma GroupFirstRead(infos: seq<DeviceInfo>, w: World, recs: seq<MachineRec>, i: nat,
                       read: map<string, map<string, Limit>>, queries: int)
    requires i < |recs| && recs[i].nodeGroupUUID != "" && recs[i].nodeGroupUUID !in read
    requires GroupsUpTo(infos, w, recs, i, read, queries)
    ensures GroupLimits(infos, w, recs, recs[i].nodeGroupUUID) == ReadLimits(w, recs[i].machineUUID, Models(infos))
    ensures queries + |Models(infos)| <= Times(|NodeGroups(recs)|, |Models(infos)|)
  {
    GroupsOneMore(recs, i);
    TimesGrows(|read.Keys|, |NodeGroups(recs)|, |Models(infos)|);
  }

  lemma GroupJustRead(infos: seq<DeviceInfo>, w: World, recs: seq<MachineRec>, i: nat,
                      read: map<string, map<string, Limit>>, queries: int, limits: map<string, Limit>)
    requires i < |recs| && recs[i].nodeGroupUUID != "" && recs[i].nodeGroupUUID !in read
    requires GroupsUpTo(infos, w, recs, i, read, queries)
    requires GroupLimits(infos, w, recs, recs[i].nodeGroupUUID) == Some(limits)
    ensures GroupsUpTo(infos, w, recs, i + 1, read[recs[i].nodeGroupUUID := limits], queries + |Models(infos)|)
  {
    GroupsOneMore(recs, i);
    CountOneMore(read, recs[i].nodeGroupUUID, limits, |Models(infos)|);
    OneMoreGroupRead(infos, w, recs, read, recs[i].nodeGroupUUID, limits);
  }

  /** One more machine adds its fabric, new or not; for a new one it speaks, and it is one of those still to be read. */
  lemma {:induction false} FabricsOneMore(recs: seq<MachineRec>, i: nat, f: int)
    requires i < |recs| && recs[i].fabricID == Some(f)
    ensures Fabrics(recs[..i + 1]) == Fabrics(recs[..i]) + {f}
    ensures f !in Fabrics(recs[..i]) ==> FabricRep(recs, f) == Some(recs[i]) && |Fabrics(recs[..i])| < |Fabrics(recs)|
  {
    assert recs[..i + 1][..i] == recs[..i];
    FabricPrefix(recs, i + 1, f);
    FabricPrefix(recs, i, f);
    SubsetIsSmaller(Fabrics(recs[..i]), Fabrics(recs), f);
  }

  lemma {:induction false} FabricPrefix(recs: seq<MachineRec>, n: nat, f: int)
    requires n <= |recs|
    ensures Fabrics(recs[..n]) <= Fabrics(recs)
    ensures FabricRep(recs[..n], f).Some? ==> FabricRep(recs, f) == FabricRep(recs[..n], f)
  {
    if n == |recs| {
      assert recs[..n] == recs;
    } else {
      assert recs[..|recs| - 1][..n] == recs[..n];
      FabricPrefix(recs[..|recs| - 1], n, f);
    }
  }

  lemma {:induction false} GroupsOneMore(recs: seq<MachineRec>, i: nat)
    requires i < |recs|
    ensures var g := recs[i].nodeGroupUUID;
            && NodeGroups(recs[..i + 1]) == NodeGroups(recs[..i]) + (if g != "" then {g} else {})
            && (g != "" && g !in NodeGroups(recs[..i]) ==>
                  GroupRep(recs, g) == Some(recs[i]) && |NodeGroups(recs[..i])| < |NodeGroups(recs)|)
  {
    var g := recs[i].nodeGroupUUID;
    assert recs[..i + 1][..i] == recs[..i];
    if g != "" {
      GroupPrefix(recs, i + 1, g);
      GroupPrefix(recs, i, g);
      SubsetIsSmaller(NodeGroups(recs[..i]), NodeGroups(recs), g);
    }
  }

  lemma {:induction false} GroupPrefix(recs: seq<MachineRec>, n: nat, g: string)
    requires n <= |recs| && g != ""
    ensures NodeGroups(recs[..n]) <= NodeGroups(recs)
    ensures GroupRep(recs[..n], g).Some? ==> GroupRep(recs, g) == GroupRep(recs[..n], g)
  {
    if n == |recs| {
      assert recs[..n] == recs;
    } else {
      assert recs[..|recs| - 1][..n] == recs[..n];
      GroupPrefix(recs[..|recs| - 1], n, g);
    }
  }

  lemma SubsetIsSmaller<T>(a: set<T>, b: set<T>, x: T)
    requires a <= b
    ensures x in b - a ==> |a| < |b|
  {
    if x in b - a {
      assert |b - a| > 0;
      assert b == a + (b - a);
    }
  }

  lemma AllFabricsListed(infos: seq<DeviceInfo>, w: World, recs: seq<MachineRec>, read: map<int, ViewList>)
    requires read.Keys == Fabrics(recs) && AllFabricsRead(infos, w, recs, read)
    requires forall i :: 0 <= i < |recs| ==> recs[i].fabricID.Some?
    ensures forall i :: 0 <= i < |recs| ==>
              recs[i].fabricID.value in read && read[recs[i].fabricID.value].Keys == Models(infos)
  {
    forall i | 0 <= i < |recs|
      ensures recs[i].fabricID.value in read && read[recs[i].fabricID.value].Keys == Models(infos)
    {
      Listed(recs, recs[i]);
      ReadListKeys(infos, w, FabricRep(recs, recs[i].fabricID.value).value.machineUUID);
    }
  }

  lemma AllGroupsListed(infos: seq<DeviceInfo>, w: World, recs: seq<MachineRec>, read: map<string, map<string, Limit>>)
    requires read.Keys == NodeGroups(recs) && AllGroupsRead(infos, w, recs, read)
    ensures forall g :: g in read ==> g != "" && read[g].Keys == Models(infos)
    ensures forall i :: 0 <= i < |recs| && recs[i].nodeGroupUUID != "" ==> recs[i].nodeGroupUUID in read
  {
    forall i | 0 <= i < |recs| && recs[i].nodeGroupUUID != ""
      ensures recs[i].nodeGroupUUID in read
    {
      Listed(recs, recs[i]);
    }
  }

  /** A node group that cannot be read fails the scan even though its machines' fabrics could be. */
  lemma UnreadGroupFails(options: Options, infos: seq<DeviceInfo>, w: World, recs: seq<MachineRec>,
                         read: map<int, ViewList>)
    requires options.useCM
    requires forall i :: 0 <= i < |recs| ==> recs[i].fabricID.Some? && recs[i].fabricID.value in read
    requires AllFabricsRead(infos, w, recs, read)
    requires exists i ::
               0 <= i < |recs| && recs[i].nodeGroupUUID != "" && GroupLimits(infos, w, recs, recs[i].nodeGroupUUID).None?
    ensures ScanViews(options, infos, w, recs).None?
  {
    var i :| 0 <= i < |recs| && recs[i].nodeGroupUUID != "" && GroupLimits(infos, w, recs, recs[i].nodeGroupUUID).None?;
    assert Shared(options, infos, w, recs, recs[i]).None?;
  }

  lemma UnreadFabricFails(options: Options, infos: seq<DeviceInfo>, w: World, recs: seq<MachineRec>)
    requires exists i ::
               0 <= i < |recs| && recs[i].fabricID.Some? && FabricList(infos, w, recs, recs[i].fabricID.value).None?
    ensures ScanViews(options, infos, w, recs).None?
  {
    var i :| 0 <= i < |recs| && recs[i].fabricID.Some? && FabricList(infos, w, recs, recs[i].fabricID.value).None?;
    assert Shared(options, infos, w, recs, recs[i]).None?;
  }

  /** How many requests a scan over these machines makes: all of them when it succeeds, at most that many otherwise. */
  ghost predicate Queried(options: Options, infos: seq<DeviceInfo>, recs: seq<MachineRec>, ok: bool,
                          availability: int, limits: int) {
    var allAvailability := Times(|Fabrics(recs)|, |infos|);
    var allLimits := if options.useCM then Times(|NodeGroups(recs)|, |Models(infos)|) else 0;
    && 0 <= availability <= allAvailability && 0 <= limits <= allLimits
    && (ok ==> availability == allAvailability && limits == allLimits)
  }

  lemma {:induction false} ModelsCount(infos: seq<DeviceInfo>)
    requires ValidInfos(infos)
    ensures |Models(infos)| == |infos|
  {
    if infos != [] {
      var before, n := infos[..|infos| - 1], |infos| - 1;
      ModelsCount(before);
      assert forall i :: 0 <= i < n ==> before[i] == infos[i];
      assert infos[n].cdiModelName in Models(infos);
      assert Models(infos) == Models(before) + {infos[n].cdiModelName};
    }
  }

  /** A successful scan makes one availability request per distinct fabric and device info and, with the cluster manager,
      one limit request per distinct node group and device info. */
  lemma QueriesAreProducts(options: Options, infos: seq<DeviceInfo>, recs: seq<MachineRec>, availability: int,
                           limits: int)
    requires ValidInfos(infos) && Queried(options, infos, recs, true, availability, limits)
    ensures availability == |Fabrics(recs)| * |infos|
    ensures limits == if options.useCM then |NodeGroups(recs)| * |infos| else 0
  {
    ModelsCount(infos);
    TimesIsProduct(|Fabrics(recs)|, |infos|);
    TimesIsProduct(|NodeGroups(recs)|, |infos|);
  }
}
