/** One scan as values: what the fabric manager and the cluster manager answer, the machines it
    finds, and the device list each machine ends up with. */
module Scans {
  import opened Text
  import opened Pools
  import opened Runs
  import opened Providers

  const MAX_RESERVED := 128

  datatype FMMachine = FMMachine(fabricID: Option<int>, machineUUID: string)

  datatype CMNodeGroup = CMNodeGroup(uuid: string, name: string)

  datatype CMNodeGroupInfo = CMNodeGroupInfo(uuid: string, name: string, machineIDs: seq<string>)

  datatype Condition = Condition(column: string, operator: string, value: string)

  datatype ResSpec = ResSpec(conditions: seq<Condition>, min: Option<int>, max: Option<int>)

  datatype Limit = Limit(min: Option<int>, max: Option<int>)

  type Labels = map<string, string>

  datatype Options = Options(useCapiBmh: bool, useCM: bool)

  /** Everything outside the driver that one scan may read. A request without an entry fails. Each request is made at
      most once per scan, so a table of answers is no restriction; reserved numbers and node details are per machine
      and model. Nodes and hosts are the informer caches; labelNodes is the node cache when labels are written. */
  datatype World = World(nodes: Nodes, hosts: Hosts, machineList: Option<seq<FMMachine>>,
                         nodeGroups: Option<seq<CMNodeGroup>>, groupInfos: map<nat, CMNodeGroupInfo>,
                         reserved: map<(string, string), int>, details: map<(string, string), seq<ResSpec>>,
                         labelNodes: map<string, Labels>, lookupErrors: set<string>, updateErrors: set<string>)

  // The machines of a scan.

  datatype MachineRec = MachineRec(nodeName: string, machineUUID: string, fabricID: Option<int>, nodeGroupUUID: string)

  /** The fabric of the first listed machine with that UUID. */
  function FabricOf(list: seq<FMMachine>, uuid: string): Option<int> {
    if list == [] then None
    else if list[0].machineUUID == uuid then list[0].fabricID
    else FabricOf(list[1..], uuid)
  }

  /** Only the first entry counts: a machine listed first without a fabric has none, whatever follows. */
  lemma {:induction false} FirstEntryCounts(list: seq<FMMachine>, uuid: string, i: nat)
    requires i < |list| && list[i].machineUUID == uuid
    requires forall j :: 0 <= j < i ==> list[j].machineUUID != uuid
    ensures FabricOf(list, uuid) == list[i].fabricID
  {
    if i > 0 {
      assert list[0].machineUUID != uuid;
      FirstEntryCounts(list[1..], uuid, i - 1);
    }
  }

  /** The i-th entry is the first with this UUID. */
  ghost predicate FirstEntry(list: seq<FMMachine>, uuid: string, i: int) {
    0 <= i < |list| && list[i].machineUUID == uuid && forall j :: 0 <= j < i ==> list[j].machineUUID != uuid
  }

  /** A machine has the fabric of its first entry, and none if it is not listed. */
  lemma {:induction false} FabricOfEntries(list: seq<FMMachine>, uuid: string)
    ensures (forall j :: 0 <= j < |list| ==> list[j].machineUUID != uuid) ==> FabricOf(list, uuid) == None
    ensures forall i :: FirstEntry(list, uuid, i) ==> FabricOf(list, uuid) == list[i].fabricID
    ensures FabricOf(list, uuid).Some? ==> exists i :: FirstEntry(list, uuid, i)
  {
    if list != [] {
      var tail := list[1..];
      FabricOfEntries(tail, uuid);
      assert forall j :: 0 <= j < |tail| ==> tail[j] == list[j + 1];
      forall i | FirstEntry(list, uuid, i)
        ensures FabricOf(list, uuid) == list[i].fabricID
      {
        FirstEntryCounts(list, uuid, i);
      }
      if list[0].machineUUID == uuid {
        assert FirstEntry(list, uuid, 0);
      } else if i :| FirstEntry(tail, uuid, i) {
        assert FirstEntry(list, uuid, i + 1);
      }
    }
  }

  /** The UUID of the last node group that lists the machine, "" if none does. */
  function LastGroup(groups: seq<CMNodeGroupInfo>, uuid: string): string {
    if groups == [] then ""
    else if uuid in groups[|groups| - 1].machineIDs then groups[|groups| - 1].uuid
    else LastGroup(groups[..|groups| - 1], uuid)
  }

  /** It is the last group that counts, not the first. */
  lemma {:induction false} LastGroupCounts(groups: seq<CMNodeGroupInfo>, uuid: string, i: nat)
    requires i < |groups| && uuid in groups[i].machineIDs
    requires forall j :: i < j < |groups| ==> uuid !in groups[j].machineIDs
    ensures LastGroup(groups, uuid) == groups[i].uuid
  {
    if i < |groups| - 1 {
      LastGroupCounts(groups[..|groups| - 1], uuid, i);
    }
  }

  /** g is the UUID of the last group that lists the machine, "" if none does. */
  ghost predicate IsLastGroup(groups: seq<CMNodeGroupInfo>, uuid: string, g: string) {
    if forall i :: 0 <= i < |groups| ==> uuid !in groups[i].machineIDs then g == ""
    else exists i :: && 0 <= i < |groups| && uuid in groups[i].machineIDs && g == groups[i].uuid
                     && forall j :: i < j < |groups| ==> uuid !in groups[j].machineIDs
  }

  lemma {:induction false} LastGroupIsLast(groups: seq<CMNodeGroupInfo>, uuid: string)
    ensures IsLastGroup(groups, uuid, LastGroup(groups, uuid))
  {
    if groups != [] {
      var n := |groups| - 1;
      LastGroupIsLast(groups[..n], uuid);
      assert forall i :: 0 <= i < n ==> groups[..n][i] == groups[i];
    }
  }

  /** The infos of all node groups, if every request succeeds. */
  function Groups(w: World): Option<seq<CMNodeGroupInfo>> {
    match w.nodeGroups
    case None => None
    case Some(groups) =>
      if exists i :: 0 <= i < |groups| && i !in w.groupInfos then None
      else Some(seq(|groups|, i requires 0 <= i < |groups| => w.groupInfos[i]))
  }

  function MachinesOf(uuids: map<string, string>, list: seq<FMMachine>,
                      groups: seq<CMNodeGroupInfo>): map<string, MachineRec> {
    map n | n in uuids && FabricOf(list, uuids[n]).Some? :: MachineOf(uuids, list, groups, n)
  }

  function MachineOf(uuids: map<string, string>, list: seq<FMMachine>, groups: seq<CMNodeGroupInfo>,
                     n: string): MachineRec
    requires n in uuids
  {
    MachineRec(n, uuids[n], FabricOf(list, uuids[n]), LastGroup(groups, uuids[n]))
  }

  /** The machines a scan processes, by node name; None when it stops with an error before it has them. */
  ghost function Machines(options: Options, w: World): Option<map<string, MachineRec>> {
    MachinesWith(options, w, MachineUUIDs(options.useCapiBmh, w.nodes, w.hosts))
  }

  function MachinesWith(options: Options, w: World,
                        uuids: Option<map<string, string>>): Option<map<string, MachineRec>> {
    var groups := if options.useCM then Groups(w) else Some([]);
    if uuids.None? || uuids.value == map[] || w.machineList.None? || groups.None? then None
    else
      var machines := MachinesOf(uuids.value, w.machineList.value, groups.value);
      if machines == map[] then None else Some(machines)
  }

  /** recs lists the machines, each once, in some order. */
  ghost predicate Enumerates(recs: seq<MachineRec>, machines: map<string, MachineRec>) {
    && (forall i :: 0 <= i < |recs| ==> recs[i].nodeName in machines && machines[recs[i].nodeName] == recs[i])
    && (forall i, j :: 0 <= i < j < |recs| ==> recs[i].nodeName != recs[j].nodeName)
    && (forall n :: n in machines ==> exists i :: 0 <= i < |recs| && recs[i].nodeName == n)
  }

  /** The machine of a node carries the UUID looked up for it, the fabric of the first entry with that UUID, and the last
      group that lists it. */
  ghost predicate IsMachineOf(uuids: map<string, string>, list: seq<FMMachine>, groups: seq<CMNodeGroupInfo>,
                              rec: MachineRec) {
    && rec.nodeName in uuids && rec.machineUUID == uuids[rec.nodeName] && rec.fabricID.Some?
    && (exists i :: FirstEntry(list, uuids[rec.nodeName], i) && list[i].fabricID == rec.fabricID)
    && IsLastGroup(groups, uuids[rec.nodeName], rec.nodeGroupUUID)
  }

  /** The first entry with the node's UUID has a fabric. */
  ghost predicate HasFabric(uuids: map<string, string>, list: seq<FMMachine>, n: string) {
    n in uuids && exists i :: FirstEntry(list, uuids[n], i) && list[i].fabricID.Some?
  }

  /** Exactly the nodes with a fabric have a machine, and it is theirs. */
  ghost predicate AreMachinesOf(uuids: map<string, string>, list: seq<FMMachine>, groups: seq<CMNodeGroupInfo>,
                                recs: seq<MachineRec>) {
    && (forall k :: 0 <= k < |recs| ==> IsMachineOf(uuids, list, groups, recs[k]))
    && (forall n :: HasFabric(uuids, list, n) ==> exists k :: 0 <= k < |recs| && recs[k].nodeName == n)
  }

  lemma MachinesOfNodes(uuids: map<string, string>, list: seq<FMMachine>, groups: seq<CMNodeGroupInfo>, n: string)
    ensures n in MachinesOf(uuids, list, groups) <==> HasFabric(uuids, list, n)
    ensures n in MachinesOf(uuids, list, groups) ==> IsMachineOf(uuids, list, groups, MachinesOf(uuids, list, groups)[n])
  {
    if n in uuids {
      FabricOfEntries(list, uuids[n]);
      LastGroupIsLast(groups, uuids[n]);
    }
  }

  lemma {:induction false} EnumeratedAreMachines(uuids: map<string, string>, list: seq<FMMachine>,
                                                 groups: seq<CMNodeGroupInfo>, recs: seq<MachineRec>)
    requires Enumerates(recs, MachinesOf(uuids, list, groups))
    ensures AreMachinesOf(uuids, list, groups, recs)
  {
    forall k | 0 <= k < |recs|
      ensures IsMachineOf(uuids, list, groups, recs[k])
    {
      MachinesOfNodes(uuids, list, groups, recs[k].nodeName);
    }
    forall n | HasFabric(uuids, list, n)
      ensures exists k :: 0 <= k < |recs| && recs[k].nodeName == n
    {
      MachinesOfNodes(uuids, list, groups, n);
    }
  }

  /** The answers for all groups, in the order of the list; no group without the cluster manager. */
  ghost predicate AreGroups(options: Options, w: World, groups: seq<CMNodeGroupInfo>) {
    if options.useCM then
      && w.nodeGroups.Some? && |groups| == |w.nodeGroups.value|
      && forall i :: 0 <= i < |groups| ==> i in w.groupInfos && groups[i] == w.groupInfos[i]
    else groups == []
  }

  /** A group cannot be read. */
  ghost predicate GroupsUnread(options: Options, w: World) {
    options.useCM && (w.nodeGroups.None? || exists i :: 0 <= i < |w.nodeGroups.value| && i !in w.groupInfos)
  }

  /** Which machines a scan processes, on what it reads: those of the looked-up nodes with a fabric, no others. */
  lemma {:induction false} ProcessedMachines(options: Options, w: World, recs: seq<MachineRec>)
    returns (groups: seq<CMNodeGroupInfo>)
    requires Machines(options, w).Some? && Enumerates(recs, Machines(options, w).value)
    ensures AreGroups(options, w, groups) && w.machineList.Some?
    ensures MachineUUIDs(options.useCapiBmh, w.nodes, w.hosts).Some?
    ensures AreMachinesOf(MachineUUIDs(options.useCapiBmh, w.nodes, w.hosts).value, w.machineList.value, groups, recs)
  {
    groups := if options.useCM then Groups(w).value else [];
    EnumeratedAreMachines(MachineUUIDs(options.useCapiBmh, w.nodes, w.hosts).value, w.machineList.value, groups, recs);
  }

  /** Exactly when a scan stops with an error before it asks for devices. */
  lemma NoMachinesIff(options: Options, w: World)
    ensures var uuids := MachineUUIDs(options.useCapiBmh, w.nodes, w.hosts);
            Machines(options, w).None? <==>
            || uuids.None? || w.machineList.None? || GroupsUnread(options, w)
            || forall n :: !HasFabric(uuids.value, w.machineList.value, n)
  {
    var uuids := MachineUUIDs(options.useCapiBmh, w.nodes, w.hosts);
    if uuids.Some? && w.machineList.Some? && !GroupsUnread(options, w) {
      var groups := if options.useCM then Groups(w).value else [];
      SomeMachineIff(uuids.value, w.machineList.value, groups);
    }
  }

  lemma SomeMachineIff(uuids: map<string, string>, list: seq<FMMachine>, groups: seq<CMNodeGroupInfo>)
    ensures MachinesOf(uuids, list, groups) == map[] <==> forall n :: !HasFabric(uuids, list, n)
    ensures uuids == map[] ==> MachinesOf(uuids, list, groups) == map[]
  {
    forall n
      ensures n in MachinesOf(uuids, list, groups) <==> HasFabric(uuids, list, n)
    {
      MachinesOfNodes(uuids, list, groups, n);
    }
    if forall n :: !HasFabric(uuids, list, n) {
      assert MachinesOf(uuids, list, groups).Keys == {};
    }
  }

  // What the managers answer for one machine.

  function Available(w: World, uuid: string, model: string): Option<int> {
    if (uuid, model) in w.reserved && w.reserved[(uuid, model)] <= MAX_RESERVED
        then Some(w.reserved[(uuid, model)]) else None
  }

  predicate Matches(spec: ResSpec, model: string) {
    Condition("model", "eq", model) in spec.conditions
  }

  /** The limits in a machine's resource specs: the last one given for the model counts, for either bound on its own. */
  function LimitIn(specs: seq<ResSpec>, model: string): Limit {
    if specs == [] then Limit(None, None)
    else
      var before, spec := LimitIn(specs[..|specs| - 1], model), specs[|specs| - 1];
      if Matches(spec, model) then Overridden(before, spec) else before
  }

  function Overridden(limit: Limit, spec: ResSpec): Limit {
    Limit(if spec.min.Some? then spec.min else limit.min, if spec.max.Some? then spec.max else limit.max)
  }

  /** Each bound is the one of the last matching spec that gives it, whatever the specs say of the other bound. */
  lemma {:induction false} LastLimitCounts(specs: seq<ResSpec>, model: string, i: nat)
    requires i < |specs| && Matches(specs[i], model)
    ensures specs[i].min.Some? && (forall j :: i < j < |specs| && Matches(specs[j], model) ==> specs[j].min.None?)
            ==> LimitIn(specs, model).min == specs[i].min
    ensures specs[i].max.Some? && (forall j :: i < j < |specs| && Matches(specs[j], model) ==> specs[j].max.None?)
            ==> LimitIn(specs, model).max == specs[i].max
  {
    if i < |specs| - 1 {
      LastLimitCounts(specs[..|specs| - 1], model, i);
    }
  }

  /** A bound that no matching spec gives is missing. */
  lemma {:induction false} NoLimitGiven(specs: seq<ResSpec>, model: string)
    ensures (forall j :: 0 <= j < |specs| && Matches(specs[j], model) ==> specs[j].min.None?)
            <==> LimitIn(specs, model).min.None?
    ensures (forall j :: 0 <= j < |specs| && Matches(specs[j], model) ==> specs[j].max.None?)
            <==> LimitIn(specs, model).max.None?
  {
    if specs != [] {
      var before := specs[..|specs| - 1];
      assert forall j :: 0 <= j < |before| ==> before[j] == specs[j];
      NoLimitGiven(before, model);
    }
  }

  function LimitOf(w: World, uuid: string, model: string): Option<Limit> {
    if (uuid, model) in w.details then Some(LimitIn(w.details[(uuid, model)], model)) else None
  }

  /** The spec gives a minimum, and one of its conditions asks for exactly this model. */
  ghost predicate GivesMin(spec: ResSpec, model: string) {
    spec.min.Some? && exists c :: c in spec.conditions && c.column == "model" && c.operator == "eq" && c.value == model
  }

  ghost predicate GivesMax(spec: ResSpec, model: string) {
    spec.max.Some? && exists c :: c in spec.conditions && c.column == "model" && c.operator == "eq" && c.value == model
  }

  /** min is that of the last spec that gives one, None if there is none. */
  ghost predicate IsLastMin(specs: seq<ResSpec>, model: string, min: Option<int>) {
    if min.None? then forall i :: 0 <= i < |specs| ==> !GivesMin(specs[i], model)
    else exists i :: && 0 <= i < |specs| && GivesMin(specs[i], model) && specs[i].min == min
                     && forall j :: i < j < |specs| ==> !GivesMin(specs[j], model)
  }

  ghost predicate IsLastMax(specs: seq<ResSpec>, model: string, max: Option<int>) {
    if max.None? then forall i :: 0 <= i < |specs| ==> !GivesMax(specs[i], model)
    else exists i :: && 0 <= i < |specs| && GivesMax(specs[i], model) && specs[i].max == max
                     && forall j :: i < j < |specs| ==> !GivesMax(specs[j], model)
  }

  lemma MatchesOverFields(spec: ResSpec, model: string)
    ensures GivesMin(spec, model) <==> spec.min.Some? && Matches(spec, model)
    ensures GivesMax(spec, model) <==> spec.max.Some? && Matches(spec, model)
  {
    if Matches(spec, model) {
      assert Condition("model", "eq", model) in spec.conditions;
    }
    forall c | c in spec.conditions && c.column == "model" && c.operator == "eq" && c.value == model
      ensures Matches(spec, model)
    {
      assert c == Condition("model", "eq", model);
    }
  }

  lemma {:induction false} MinIsLast(specs: seq<ResSpec>, model: string)
    ensures IsLastMin(specs, model, LimitIn(specs, model).min)
  {
    if specs != [] {
      var n := |specs| - 1;
      MinIsLast(specs[..n], model);
      MatchesOverFields(specs[n], model);
      assert forall i :: 0 <= i < n ==> specs[..n][i] == specs[i];
    }
  }

  lemma {:induction false} MaxIsLast(specs: seq<ResSpec>, model: string)
    ensures IsLastMax(specs, model, LimitIn(specs, model).max)
  {
    if specs != [] {
      var n := |specs| - 1;
      MaxIsLast(specs[..n], model);
      MatchesOverFields(specs[n], model);
      assert forall i :: 0 <= i < n ==> specs[..n][i] == specs[i];
    }
  }

  /** The limit of a model, on the node details alone. */
  ghost predicate IsLimit(w: World, uuid: string, model: string, limit: Limit) {
    && (uuid, model) in w.details
    && IsLastMin(w.details[(uuid, model)], model, limit.min)
    && IsLastMax(w.details[(uuid, model)], model, limit.max)
  }

  lemma LimitOfDetails(w: World, uuid: string, model: string)
    ensures LimitOf(w, uuid, model).None? <==> (uuid, model) !in w.details
    ensures LimitOf(w, uuid, model).Some? ==> IsLimit(w, uuid, model, LimitOf(w, uuid, model).value)
  {
    if (uuid, model) in w.details {
      MinIsLast(w.details[(uuid, model)], model);
      MaxIsLast(w.details[(uuid, model)], model);
    }
  }

  /** A device object: what its pool is made of, and its limits. */
  datatype DeviceView = DeviceView(record: DeviceRecord, min: Option<int>, max: Option<int>)

  type ViewList = map<string, DeviceView>

  function NewDevice(info: DeviceInfo, available: int): DeviceView {
    DeviceView(Device(info, available), None, None)
  }

  /** The device list read through one machine; None when a request fails or exceeds the maximum. */
  function ReadList(infos: seq<DeviceInfo>, w: World, uuid: string): Option<ViewList> {
    if infos == [] then Some(map[])
    else
      var before, info := ReadList(infos[..|infos| - 1], w, uuid), infos[|infos| - 1];
      var available := Available(w, uuid, info.cdiModelName);
      if before.None? || available.None? then None
      else Some(before.value[info.cdiModelName := NewDevice(info, available.value)])
  }

  /** The limits of these models read through one machine. */
  function ReadLimits(w: World, uuid: string, models: set<string>): Option<map<string, Limit>> {
    if exists m :: m in models && LimitOf(w, uuid, m).None? then None
    else Some(map m | m in models :: LimitOf(w, uuid, m).value)
  }

  function Limited(view: DeviceView, limit: Limit): DeviceView {
    view.(min := if limit.min.Some? then limit.min else view.min, max := if limit.max.Some? then limit.max
        else view.max)
  }

  function AddLimits(list: ViewList, limits: map<string, Limit>): ViewList {
    map m | m in list :: if m in limits then Limited(list[m], limits[m]) else list[m]
  }

  /** What asking both managers about this machine alone would give it. */
  function AskedAlone(options: Options, infos: seq<DeviceInfo>, w: World, rec: MachineRec): Option<ViewList> {
    var list := ReadList(infos, w, rec.machineUUID);
    if list.None? || !options.useCM || rec.nodeGroupUUID == "" then list
    else
      var limits := ReadLimits(w, rec.machineUUID, list.value.Keys);
      if limits.None? then None else Some(AddLimits(list.value, limits.value))
  }

  // The memoised scan: one machine speaks for its fabric, one for its node group.

  /** The fabrics of the machines. */
  function Fabrics(recs: seq<MachineRec>): set<int> {
    if recs == [] then {}
    else
      var fabricID := recs[|recs| - 1].fabricID;
      Fabrics(recs[..|recs| - 1]) + if fabricID.Some? then {fabricID.value} else {}
  }

  /** The node groups of the machines that have one. */
  function NodeGroups(recs: seq<MachineRec>): set<string> {
    if recs == [] then {}
    else
      var g := recs[|recs| - 1].nodeGroupUUID;
      NodeGroups(recs[..|recs| - 1]) + if g != "" then {g} else {}
  }

  /** The first machine of a fabric. */
  function FabricRep(recs: seq<MachineRec>, f: int): (r: Option<MachineRec>)
    ensures r.Some? <==> f in Fabrics(recs)
    ensures r.Some? ==> r.value.fabricID == Some(f)
  {
    if recs == [] then None
    else
      var before := FabricRep(recs[..|recs| - 1], f);
      if before.Some? then before
      else if recs[|recs| - 1].fabricID == Some(f) then Some(recs[|recs| - 1]) else None
  }

  /** The first machine of a node group. */
  function GroupRep(recs: seq<MachineRec>, g: string): (r: Option<MachineRec>)
    requires g != ""
    ensures r.Some? <==> g in NodeGroups(recs)
    ensures r.Some? ==> r.value.nodeGroupUUID == g
  {
    if recs == [] then None
    else
      var before := GroupRep(recs[..|recs| - 1], g);
      if before.Some? then before
      else if recs[|recs| - 1].nodeGroupUUID == g then Some(recs[|recs| - 1]) else None
  }

  lemma {:induction false} FabricRepListed(recs: seq<MachineRec>, f: int)
    ensures FabricRep(recs, f).Some? ==> FabricRep(recs, f).value in recs
  {
    if recs != [] {
      FabricRepListed(recs[..|recs| - 1], f);
    }
  }

  lemma {:induction false} GroupRepListed(recs: seq<MachineRec>, g: string)
    requires g != ""
    ensures GroupRep(recs, g).Some? ==> GroupRep(recs, g).value in recs
  {
    if recs != [] {
      GroupRepListed(recs[..|recs| - 1], g);
    }
  }

  /** It is the first machine of the fabric in the order of the scan that speaks for it. */
  lemma {:induction false} FabricRepIsFirst(recs: seq<MachineRec>, f: int, i: nat)
    requires i < |recs| && recs[i].fabricID == Some(f) && forall j :: 0 <= j < i ==> recs[j].fabricID != Some(f)
    ensures FabricRep(recs, f) == Some(recs[i])
  {
    var before := recs[..|recs| - 1];
    if i < |before| {
      FabricRepIsFirst(before, f, i);
    } else if FabricRep(before, f).Some? {
      FabricRepListed(before, f);
    }
  }

  lemma {:induction false} GroupRepIsFirst(recs: seq<MachineRec>, g: string, i: nat)
    requires g != "" && i < |recs| && recs[i].nodeGroupUUID == g
    requires forall j :: 0 <= j < i ==> recs[j].nodeGroupUUID != g
    ensures GroupRep(recs, g) == Some(recs[i])
  {
    var before := recs[..|recs| - 1];
    if i < |before| {
      GroupRepIsFirst(before, g, i);
    } else if GroupRep(before, g).Some? {
      GroupRepListed(before, g);
    }
  }

  /** A listed machine's fabric and node group are among those of the machines. */
  lemma {:induction false} Listed(recs: seq<MachineRec>, rec: MachineRec)
    requires rec in recs
    ensures rec.fabricID.Some? ==> rec.fabricID.value in Fabrics(recs)
    ensures rec.nodeGroupUUID != "" ==> rec.nodeGroupUUID in NodeGroups(recs)
  {
    if rec != recs[|recs| - 1] {
      Listed(recs[..|recs| - 1], rec);
    }
  }

  function FabricList(infos: seq<DeviceInfo>, w: World, recs: seq<MachineRec>, f: int): Option<ViewList> {
    match FabricRep(recs, f)
    case Some(rep) => ReadList(infos, w, rep.machineUUID)
    case None => None
  }

  function Models(infos: seq<DeviceInfo>): set<string> {
    set i | 0 <= i < |infos| :: infos[i].cdiModelName
  }

  function GroupLimits(infos: seq<DeviceInfo>, w: World, recs: seq<MachineRec>, g: string): Option<map<string, Limit>>
    requires g != ""
  {
    match GroupRep(recs, g)
    case Some(rep) => ReadLimits(w, rep.machineUUID, Models(infos))
    case None => None
  }

  predicate NeedsLimits(options: Options, rec: MachineRec) {
    options.useCM && rec.nodeGroupUUID != ""
  }

  /** What the scan gives one of the machines, from its fabric's list and its group's limits. */
  function Shared(options: Options, infos: seq<DeviceInfo>, w: World, recs: seq<MachineRec>,
                  rec: MachineRec): Option<ViewList> {
    if rec.fabricID.None? then None
    else
      var list := FabricList(infos, w, recs, rec.fabricID.value);
      if list.None? || !NeedsLimits(options, rec) then list
      else
        var limits := GroupLimits(infos, w, recs, rec.nodeGroupUUID);
        if limits.None? then None else Some(AddLimits(list.value, limits.value))
  }

  datatype MachineView = MachineView(rec: MachineRec, devices: ViewList)

  /** The machines with their devices after the reading phase; None when a request failed. */
  ghost function ScanViews(options: Options, infos: seq<DeviceInfo>, w: World,
                           recs: seq<MachineRec>): Option<seq<MachineView>> {
    if exists i :: 0 <= i < |recs| && Shared(options, infos, w, recs, recs[i]).None? then None
    else Some(seq(|recs|, i requires 0 <= i < |recs| => MachineView(recs[i], Shared(options, infos, w, recs, recs[i]).value)))
  }

  // What of it reaches the pools.

  function Records(list: ViewList): DeviceList {
    map m | m in list :: list[m].record
  }

  /** Each fabric with the device list of its first machine. */
  function FirstLists(views: seq<MachineView>): map<int, DeviceList> {
    if views == [] then map[] else WithList(FirstLists(views[..|views| - 1]), views[|views| - 1])
  }

  /** A machine's list counts for its fabric unless there is one already. */
  function WithList(lists: map<int, DeviceList>, view: MachineView): map<int, DeviceList> {
    if view.rec.fabricID.None? || view.rec.fabricID.value in lists then lists
    else lists[view.rec.fabricID.value := Records(view.devices)]
  }

  lemma FirstListsOneMore(views: seq<MachineView>, i: nat)
    requires i < |views|
    ensures FirstLists(views[..i + 1]) == WithList(FirstLists(views[..i]), views[i])
  {
    assert views[..i + 1][..i] == views[..i];
  }
}
