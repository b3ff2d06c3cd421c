/** Node labels: what one labelling of a node leaves, and how that fits the selectors of the pools. */
module NodeLabels {
  import opened Text
  import opened Naming
  import opened Pools
  import opened Runs
  import opened Scans
  import opened ScanLaws

  /** The value written for a limit; a missing one is written as "0". */
  function Bound(limit: Option<int>): string {
    match limit
    case Some(n) => Itoa(n)
    case None => "0"
  }

  predicate DistinctDevices(devices: ViewList) {
    forall m, m' :: m in devices && m' in devices && m != m' ==>
        devices[m].record.k8sDeviceName != devices[m'].record.k8sDeviceName
  }

  function LimitKeys(prefix: string, devices: ViewList): set<string> {
    (set m | m in devices :: MaxKey(prefix, devices[m].record.k8sDeviceName))
    + (set m | m in devices :: MinKey(prefix, devices[m].record.k8sDeviceName))
  }

  function WrittenKeys(prefix: string, useCM: bool, fabricID: Option<int>, devices: ViewList): set<string> {
    (if fabricID.Some? then {FabricKey(prefix)} else {}) + (if useCM then LimitKeys(prefix, devices) else {})
  }

  /** The labels carry the machine's fabric and, with the cluster manager, every device's limits; all others are kept. */
  ghost predicate Labelled(prefix: string, useCM: bool, fabricID: Option<int>, devices: ViewList, before: Labels,
                           after: Labels) {
    && OnlyWritten(WrittenKeys(prefix, useCM, fabricID, devices), before, after)
    && (fabricID.Some? ==> after[FabricKey(prefix)] == Itoa(fabricID.value))
    && (useCM ==> AllLimits(prefix, devices, after))
  }

  ghost predicate AllLimits(prefix: string, devices: ViewList, labels: Labels) {
    forall m :: m in devices ==> HasLimits(prefix, devices[m], labels)
  }

  /** These keys are present, and all others are as before. */
  ghost predicate OnlyWritten(keys: set<string>, before: Labels, after: Labels) {
    && after.Keys == before.Keys + keys
    && forall key :: key in before && key !in keys ==> after[key] == before[key]
  }

  lemma OnlyWrittenTwoMore(keys: set<string>, before: Labels, labels: Labels, x: string, vx: string, y: string,
                           vy: string)
    requires OnlyWritten(keys, before, labels)
    ensures OnlyWritten(keys + {x, y}, before, labels[x := vx][y := vy])
  {
  }

  predicate HasLimits(prefix: string, device: DeviceView, labels: Labels) {
    var k := device.record.k8sDeviceName;
    && MaxKey(prefix, k) in labels && labels[MaxKey(prefix, k)] == Bound(device.max)
    && MinKey(prefix, k) in labels && labels[MinKey(prefix, k)] == Bound(device.min)
  }

  /** The result of labelling does not depend on the order in which devices are walked: there is only one. */
  lemma LabelledIsUnique(prefix: string, useCM: bool, fabricID: Option<int>, devices: ViewList, before: Labels,
                         a: Labels, b: Labels)
    requires Labelled(prefix, useCM, fabricID, devices, before, a)
             && Labelled(prefix, useCM, fabricID, devices, before, b)
    ensures a == b
  {
    forall key | key in a
      ensures a[key] == b[key]
    {
      if useCM && key in LimitKeys(prefix, devices) {
        var m :| m in devices && (key == MaxKey(prefix, devices[m].record.k8sDeviceName)
                                  || key == MinKey(prefix, devices[m].record.k8sDeviceName));
        assert HasLimits(prefix, devices[m], a) && HasLimits(prefix, devices[m], b);
      }
    }
  }

  /** Labelling a node again with the same machine changes nothing. */
  lemma LabellingSettles(prefix: string, useCM: bool, fabricID: Option<int>, devices: ViewList, before: Labels,
                         after: Labels, again: Labels)
    requires Labelled(prefix, useCM, fabricID, devices, before, after)
             && Labelled(prefix, useCM, fabricID, devices, after, again)
    ensures again == after
  {
    assert Labelled(prefix, useCM, fabricID, devices, after, after);
    LabelledIsUnique(prefix, useCM, fabricID, devices, after, after, again);
  }

  function Written(prefix: string, device: DeviceView, labels: Labels): Labels {
    var k := device.record.k8sDeviceName;
    labels[MaxKey(prefix, k) := Bound(device.max)][MinKey(prefix, k) := Bound(device.min)]
  }

  lemma LimitKeysOneMore(prefix: string, devices: ViewList, m: string, device: DeviceView)
    requires m !in devices
    ensures LimitKeys(prefix, devices[m := device])
         == LimitKeys(prefix, devices) + {MaxKey(prefix, device.record.k8sDeviceName), MinKey(prefix, device.record.k8sDeviceName)}
  {
    var more := devices[m := device];
    assert forall m' :: m' in devices ==> m' in more && more[m'] == devices[m'];
    assert m in more && more[m] == device;
  }

  /** Writing one device's limits leaves another's alone. */
  lemma LimitsKeptApart(prefix: string, device: DeviceView, other: DeviceView, labels: Labels)
    requires device.record.k8sDeviceName != other.record.k8sDeviceName && HasLimits(prefix, other, labels)
    ensures HasLimits(prefix, other, Written(prefix, device, labels))
  {
    WrittenKeysDistinct(prefix, device.record.k8sDeviceName, other.record.k8sDeviceName);
    WrittenKeysDistinct(prefix, other.record.k8sDeviceName, device.record.k8sDeviceName);
  }

  lemma AllLimitsOneMore(prefix: string, devices: ViewList, m: string, device: DeviceView, labels: Labels)
    requires m !in devices && DistinctDevices(devices[m := device])
    requires AllLimits(prefix, devices, labels)
    ensures AllLimits(prefix, devices[m := device], Written(prefix, device, labels))
  {
    var more := devices[m := device];
    WrittenKeysDistinct(prefix, device.record.k8sDeviceName, device.record.k8sDeviceName);
    forall m' | m' in more
      ensures HasLimits(prefix, more[m'], Written(prefix, device, labels))
    {
      if m' != m {
        assert more[m'] == devices[m'] && more[m] == device;
        LimitsKeptApart(prefix, device, devices[m'], labels);
      }
    }
  }

  /** One more device: its two limits are all that is written. */
  lemma LabelledOneMore(prefix: string, fabricID: Option<int>, devices: ViewList, m: string, device: DeviceView,
                        before: Labels, labels: Labels)
    requires m !in devices && DistinctDevices(devices[m := device])
    requires Labelled(prefix, true, fabricID, devices, before, labels)
    ensures Labelled(prefix, true, fabricID, devices[m := device], before, Written(prefix, device, labels))
  {
    var k := device.record.k8sDeviceName;
    AllLimitsOneMore(prefix, devices, m, device, labels);
    LimitKeysOneMore(prefix, devices, m, device);
    WrittenKeysDistinct(prefix, k, k);
    var keys, more := WrittenKeys(prefix, true, fabricID, devices), WrittenKeys(prefix, true, fabricID, devices[m := device]);
    assert more == keys + {MaxKey(prefix, k), MinKey(prefix, k)};
    assert fabricID.Some? ==> Written(prefix, device, labels)[FabricKey(prefix)] == labels[FabricKey(prefix)];
    OnlyWrittenTwoMore(keys, before, labels, MaxKey(prefix, k), Bound(device.max), MinKey(prefix, k), Bound(device.min));
  }

  /** Some of the devices have their limits written. */
  ghost predicate LabelledInPart(prefix: string, fabricID: Option<int>, part: ViewList, devices: ViewList,
                                 before: Labels, labels: Labels) {
    SomeOf(part, devices) && Labelled(prefix, true, fabricID, part, before, labels)
  }

  ghost predicate SomeOf(part: ViewList, devices: ViewList) {
    forall m :: m in part ==> m in devices && part[m] == devices[m]
  }

  lemma SomeOfOneMore(part: ViewList, devices: ViewList, m: string)
    requires SomeOf(part, devices) && DistinctDevices(devices) && m in devices
    ensures DistinctDevices(part[m := devices[m]]) && SomeOf(part[m := devices[m]], devices)
  {
  }

  lemma LabelledInPartOneMore(prefix: string, fabricID: Option<int>, part: ViewList, devices: ViewList, m: string,
                              before: Labels, labels: Labels)
    requires m in devices && m !in part && DistinctDevices(devices)
    requires LabelledInPart(prefix, fabricID, part, devices, before, labels)
    ensures LabelledInPart(prefix, fabricID, part[m := devices[m]], devices, before, Written(prefix, devices[m], labels))
  {
    SomeOfOneMore(part, devices, m);
    LabelledOneMore(prefix, fabricID, part, m, devices[m], before, labels);
  }

  lemma LabelledInWhole(prefix: string, fabricID: Option<int>, part: ViewList, devices: ViewList, before: Labels,
                        labels: Labels)
    requires devices.Keys <= part.Keys
    requires LabelledInPart(prefix, fabricID, part, devices, before, labels)
    ensures Labelled(prefix, true, fabricID, devices, before, labels)
  {
    assert part == devices;
  }

  /** The fabric label alone. */
  lemma LabelledFabric(prefix: string, fabricID: Option<int>, before: Labels, after: Labels, devices: ViewList)
    requires after == if fabricID.Some? then before[FabricKey(prefix) := Itoa(fabricID.value)] else before
    ensures Labelled(prefix, true, fabricID, map[], before, after)
            && Labelled(prefix, false, fabricID, devices, before, after)
  {
    var none: ViewList := map[];
    assert LimitKeys(prefix, none) == {};
  }

  // Selectors.

  predicate Satisfies(requirement: Requirement, labels: Labels) {
    requirement.key in labels && labels[requirement.key] in requirement.values
  }

  predicate SelectorMatches(selector: seq<seq<Requirement>>, labels: Labels) {
    exists t :: 0 <= t < |selector| && forall r :: 0 <= r < |selector[t]| ==> Satisfies(selector[t][r], labels)
  }

  predicate IsTrue(labels: Labels, key: string) {
    key in labels && labels[key] == "true"
  }

  lemma SelectorOfPool(prefix: string, k: string, f: int, labels: Labels)
    ensures SelectorMatches(Selector(prefix, k, f), labels)
       <==> && prefix + "/" + k in labels && labels[prefix + "/" + k] == "true"
            && prefix + "/" + "fabric" in labels && labels[prefix + "/" + "fabric"] == Itoa(f)
  {
    var term := [In(DeviceKey(prefix, k), ["true"]), In(FabricKey(prefix), [Itoa(f)])];
    assert Selector(prefix, k, f)[0] == term;
    assert term[0] == In(DeviceKey(prefix, k), ["true"]) && term[1] == In(FabricKey(prefix), [Itoa(f)]);
    assert SelectorMatches(Selector(prefix, k, f), labels)
        <==> Satisfies(term[0], labels) && Satisfies(term[1], labels);
  }

  /** The device label a pool selects on is one the driver itself overwrites. */
  ghost predicate Overwritten(useCM: bool, devices: ViewList, k: string) {
    || k == "fabric"
    || (useCM && exists m :: m in devices && IsLimitName(k, devices[m].record.k8sDeviceName))
  }

  lemma OverwrittenKeys(prefix: string, useCM: bool, f: int, devices: ViewList, k: string)
    ensures Overwritten(useCM, devices, k) <==> DeviceKey(prefix, k) in WrittenKeys(prefix, useCM, Some(f), devices)
  {
    DeviceKeyCollisions(prefix, k, k);
    forall m | m in devices
      ensures DeviceKey(prefix, k) == MaxKey(prefix, devices[m].record.k8sDeviceName)
              <==> k == devices[m].record.k8sDeviceName + "-size-max"
      ensures DeviceKey(prefix, k) == MinKey(prefix, devices[m].record.k8sDeviceName)
              <==> k == devices[m].record.k8sDeviceName + "-size-min"
    {
      DeviceKeyCollisions(prefix, k, devices[m].record.k8sDeviceName);
    }
  }

  lemma NumbersAreNotTrue(n: int)
    ensures Itoa(n) != "true" && Bound(None) != "true"
  {
    assert !IsDigit("true"[3]);
  }

  lemma OverwrittenIsNotTrue(prefix: string, useCM: bool, f: int, devices: ViewList, before: Labels, after: Labels,
                             k: string)
    requires Labelled(prefix, useCM, Some(f), devices, before, after) && Overwritten(useCM, devices, k)
    ensures !IsTrue(after, DeviceKey(prefix, k))
  {
    if k == "fabric" {
      NumbersAreNotTrue(f);
    } else {
      var m :| m in devices && IsLimitName(k, devices[m].record.k8sDeviceName);
      assert HasLimits(prefix, devices[m], after);
      DeviceKeyCollisions(prefix, k, devices[m].record.k8sDeviceName);
      NumbersAreNotTrue(if devices[m].max.Some? then devices[m].max.value else 0);
      NumbersAreNotTrue(if devices[m].min.Some? then devices[m].min.value else 0);
    }
  }

  /** End to end. The pool of a device in fabric f selects a labelled node exactly when the node carried the device's
      label "true" beforehand, its machine is in fabric f, and the label is not one the driver overwrites. The last
      condition is on the device names alone; when it fails, the pool selects no labelled node at all. */
  lemma SelectorAgrees(prefix: string, useCM: bool, fabricID: int, devices: ViewList, before: Labels, after: Labels,
                       k: string, f: int)
    requires Labelled(prefix, useCM, Some(fabricID), devices, before, after)
    ensures SelectorMatches(Selector(prefix, k, f), after)
       <==> IsTrue(before, DeviceKey(prefix, k)) && fabricID == f && !Overwritten(useCM, devices, k)
  {
    SelectorOfPool(prefix, k, f, after);
    ItoaInjective(fabricID, f);
    OverwrittenKeys(prefix, useCM, fabricID, devices, k);
    if Overwritten(useCM, devices, k) {
      OverwrittenIsNotTrue(prefix, useCM, fabricID, devices, before, after, k);
    }
  }

  /** A device named "fabric" passes validation, yet its pools select no labelled node. */
  lemma DeviceNamedFabric(prefix: string, devices: ViewList, fabricID: int, after: Labels, f: int)
    requires Labelled(prefix, false, Some(fabricID), devices, map[FabricKey(prefix) := "true"], after)
    ensures IsDNSLabel("fabric") && !SelectorMatches(Selector(prefix, "fabric", f), after)
  {
    SelectorAgrees(prefix, false, fabricID, devices, map[FabricKey(prefix) := "true"], after, "fabric", f);
  }

  // One labelling pass over the machines of a scan.

  predicate LabelFails(w: World, n: string) {
    n in w.lookupErrors || (n in w.labelNodes && n in w.updateErrors)
  }

  /** The pass got through the first `done` machines: their nodes, where they exist, are labelled; nothing else changed.
      It stopped there because of an error, or because there were no more. */
  ghost predicate LabelPass(prefix: string, useCM: bool, w: World, views: seq<MachineView>,
                            before: map<string, Labels>, after: map<string, Labels>, done: nat, ok: bool) {
    && done <= |views|
    && (ok <==> done == |views|)
    && (!ok ==> LabelFails(w, views[done].rec.nodeName))
    && LabelledUpTo(prefix, useCM, w, views, before, after, done)
  }

  ghost predicate LabelledUpTo(prefix: string, useCM: bool, w: World, views: seq<MachineView>,
                               before: map<string, Labels>, after: map<string, Labels>, done: nat)
    requires done <= |views|
  {
    && (forall i :: 0 <= i < done ==> !LabelFails(w, views[i].rec.nodeName))
    && (forall i :: 0 <= i < done && views[i].rec.nodeName in w.labelNodes ==>
        NodeLabelled(prefix, useCM, w, views[i], after))
    && (forall n :: !VisitedUpTo(w, views, done, n) ==> SameLabels(before, after, n))
  }

  /** The node of a machine is labelled for it. */
  ghost predicate NodeLabelled(prefix: string, useCM: bool, w: World, view: MachineView, nodes: map<string, Labels>)
    requires view.rec.nodeName in w.labelNodes
  {
    var n := view.rec.nodeName;
    n in nodes && Labelled(prefix, useCM, view.rec.fabricID, view.devices, w.labelNodes[n], nodes[n])
  }

  /** n is an existing node of one of the first machines. */
  ghost predicate VisitedUpTo(w: World, views: seq<MachineView>, done: nat, n: string)
    requires done <= |views|
  {
    n in w.labelNodes && exists i :: 0 <= i < done && views[i].rec.nodeName == n
  }

  predicate SameLabels(before: map<string, Labels>, after: map<string, Labels>, n: string) {
    (n in after <==> n in before) && (n in after ==> after[n] == before[n])
  }

  lemma VisitedOneFurther(w: World, views: seq<MachineView>, i: nat, n: string)
    requires i < |views|
    ensures VisitedUpTo(w, views, i + 1, n)
       <==> VisitedUpTo(w, views, i, n) || (n in w.labelNodes && views[i].rec.nodeName == n)
  {
  }

  /** The pass moves on past a machine whose node does not exist. */
  lemma LabelledPastMissing(prefix: string, useCM: bool, w: World, views: seq<MachineView>,
                            before: map<string, Labels>, nodes: map<string, Labels>, i: nat)
    requires i < |views| && LabelledUpTo(prefix, useCM, w, views, before, nodes, i)
    requires !LabelFails(w, views[i].rec.nodeName) && views[i].rec.nodeName !in w.labelNodes
    ensures LabelledUpTo(prefix, useCM, w, views, before, nodes, i + 1)
  {
    forall n | !VisitedUpTo(w, views, i + 1, n)
      ensures SameLabels(before, nodes, n)
    {
      VisitedOneFurther(w, views, i, n);
    }
  }

  /** The pass moves on past a machine whose node it labels. */
  lemma LabelledOneFurther(prefix: string, useCM: bool, w: World, views: seq<MachineView>,
                           before: map<string, Labels>, nodes: map<string, Labels>, i: nat, labels: Labels)
    requires i < |views| && DistinctNodes(views) && LabelledUpTo(prefix, useCM, w, views, before, nodes, i)
    requires !LabelFails(w, views[i].rec.nodeName) && views[i].rec.nodeName in w.labelNodes
    requires NodeLabelled(prefix, useCM, w, views[i], nodes[views[i].rec.nodeName := labels])
    ensures LabelledUpTo(prefix, useCM, w, views, before, nodes[views[i].rec.nodeName := labels], i + 1)
  {
    var after := nodes[views[i].rec.nodeName := labels];
    forall j | 0 <= j < i && views[j].rec.nodeName in w.labelNodes
      ensures NodeLabelled(prefix, useCM, w, views[j], after)
    {
      OtherNodeLabelled(prefix, useCM, w, views[j], nodes, views[i].rec.nodeName, labels);
    }
    forall n | !VisitedUpTo(w, views, i + 1, n)
      ensures SameLabels(before, after, n)
    {
      VisitedOneFurther(w, views, i, n);
      assert SameLabels(before, nodes, n);
    }
  }

  lemma OtherNodeLabelled(prefix: string, useCM: bool, w: World, view: MachineView, nodes: map<string, Labels>,
                          n: string, labels: Labels)
    requires view.rec.nodeName in w.labelNodes && view.rec.nodeName != n
    requires NodeLabelled(prefix, useCM, w, view, nodes)
    ensures NodeLabelled(prefix, useCM, w, view, nodes[n := labels])
  {
    assert nodes[n := labels][view.rec.nodeName] == nodes[view.rec.nodeName];
  }

  ghost predicate DistinctNodes(views: seq<MachineView>) {
    forall i, j :: 0 <= i < j < |views| ==> views[i].rec.nodeName != views[j].rec.nodeName
  }

  /** A scan gives every machine devices with distinct names, and every node one machine. */
  lemma {:induction false} ScanDevicesDistinct(options: Options, infos: seq<DeviceInfo>, w: World,
                                               recs: seq<MachineRec>)
    requires ValidInfos(infos) && ScanViews(options, infos, w, recs).Some?
    ensures var views := ScanViews(options, infos, w, recs).value;
            forall i :: 0 <= i < |views| ==>
              DistinctNames(Records(views[i].devices)) && DistinctDevices(views[i].devices)
  {
    var views := ScanViews(options, infos, w, recs).value;
    forall i | 0 <= i < |views|
      ensures DistinctNames(Records(views[i].devices)) && DistinctDevices(views[i].devices)
    {
      SharedDevicesDistinct(options, infos, w, recs, recs[i]);
    }
  }

  lemma {:induction false} SharedDevicesDistinct(options: Options, infos: seq<DeviceInfo>, w: World,
                                                 recs: seq<MachineRec>, rec: MachineRec)
    requires ValidInfos(infos) && Shared(options, infos, w, recs, rec).Some?
    ensures var devices := Shared(options, infos, w, recs, rec).value;
            DistinctNames(Records(devices)) && DistinctDevices(devices)
  {
    var devices, f := Shared(options, infos, w, recs, rec).value, rec.fabricID.value;
    SharedRecords(options, infos, w, recs, rec);
    ReadListFromInfos(infos, w, FabricRep(recs, f).value.machineUUID);
    ValidListsAreDistinct(infos, map[f := Records(devices)]);
    DistinctRecords(devices);
  }

  lemma DistinctRecords(devices: ViewList)
    requires DistinctNames(Records(devices))
    ensures DistinctDevices(devices)
  {
    assert forall m :: m in devices ==> m in Records(devices) && Records(devices)[m] == devices[m].record;
  }

  /** What the writing phase of a scan relies on. */
  ghost predicate Ready(infos: seq<DeviceInfo>, views: seq<MachineView>) {
    && (forall i :: 0 <= i < |views| ==> DistinctNames(Records(views[i].devices)))
    && (forall i :: 0 <= i < |views| ==> DistinctDevices(views[i].devices))
    && DistinctNodes(views) && ValidLists(infos, FirstLists(views))
  }

  lemma {:induction false} ScanIsReady(options: Options, infos: seq<DeviceInfo>, w: World, recs: seq<MachineRec>,
                                       machines: map<string, MachineRec>)
    requires ValidInfos(infos) && Enumerates(recs, machines) && ScanViews(options, infos, w, recs).Some?
    ensures Ready(infos, ScanViews(options, infos, w, recs).value)
  {
    ScanDevicesDistinct(options, infos, w, recs);
    ScanListsValid(options, infos, w, recs);
  }

  /** The pass ends at the first machine whose node cannot be looked up or updated, and goes through only if there is
      none. From that machine on no node's labels change, its own included. */
  lemma PassStopsAtFirstError(prefix: string, useCM: bool, w: World, views: seq<MachineView>,
                              before: map<string, Labels>, after: map<string, Labels>, done: nat, ok: bool)
    requires DistinctNodes(views) && LabelPass(prefix, useCM, w, views, before, after, done, ok)
    ensures forall j :: 0 <= j < |views| && views[j].rec.nodeName in w.lookupErrors ==> done <= j && !ok
    ensures forall j :: 0 <= j < |views| && views[j].rec.nodeName in w.labelNodes.Keys * w.updateErrors ==> done <= j && !ok
    ensures !ok ==> done < |views|
    ensures !ok ==> views[done].rec.nodeName in w.lookupErrors + w.labelNodes.Keys * w.updateErrors
    ensures forall j :: done <= j < |views| ==> SameLabels(before, after, views[j].rec.nodeName)
  {
    assert forall j :: 0 <= j < |views| && LabelFails(w, views[j].rec.nodeName) ==> done <= j && !ok;
    forall j | done <= j < |views|
      ensures SameLabels(before, after, views[j].rec.nodeName)
    {
      assert !VisitedUpTo(w, views, done, views[j].rec.nodeName);
    }
  }

  /** Passes over the same machines in two orders, both successful, leave the same labels everywhere. */
  lemma PassOrderIndependent(prefix: string, useCM: bool, w: World, a: seq<MachineView>, b: seq<MachineView>,
                             before: map<string, Labels>, after: map<string, Labels>, after': map<string, Labels>)
    requires forall v :: v in a <==> v in b
    requires LabelPass(prefix, useCM, w, a, before, after, |a|, true)
    requires LabelPass(prefix, useCM, w, b, before, after', |b|, true)
    ensures after == after'
  {
    forall n
      ensures n in after <==> n in after'
      ensures n in after ==> after[n] == after'[n]
    {
      if VisitedUpTo(w, a, |a|, n) {
        var i :| 0 <= i < |a| && a[i].rec.nodeName == n;
        assert a[i] in b;
        var j :| 0 <= j < |b| && b[j] == a[i];
        assert NodeLabelled(prefix, useCM, w, a[i], after) && NodeLabelled(prefix, useCM, w, b[j], after');
        LabelledIsUnique(prefix, useCM, a[i].rec.fabricID, a[i].devices, w.labelNodes[n], after[n], after'[n]);
      } else {
        assert !VisitedUpTo(w, b, |b|, n) by {
          assert forall j :: 0 <= j < |b| ==> b[j] in a;
        }
        assert SameLabels(before, after, n) && SameLabels(before, after', n);
      }
    }
  }

  /** Once the node cache has caught up, a second pass over the same machines changes no label. */
  lemma PassSettles(prefix: string, useCM: bool, w: World, w': World, views: seq<MachineView>,
                    before: map<string, Labels>, between: map<string, Labels>, after: map<string, Labels>)
    requires LabelPass(prefix, useCM, w, views, before, between, |views|, true)
    requires LabelPass(prefix, useCM, w', views, between, after, |views|, true)
    requires forall i :: 0 <= i < |views| ==> CaughtUp(w, w', between, views[i].rec.nodeName)
    ensures after == between
  {
    forall n
      ensures SameLabels(between, after, n)
    {
      if VisitedUpTo(w', views, |views|, n) {
        var i :| 0 <= i < |views| && views[i].rec.nodeName == n;
        assert CaughtUp(w, w', between, n);
        assert NodeLabelled(prefix, useCM, w, views[i], between) && NodeLabelled(prefix, useCM, w', views[i], after);
        LabellingSettles(prefix, useCM, views[i].rec.fabricID, views[i].devices, w.labelNodes[n], between[n], after[n]);
      }
    }
    assert forall n :: n in after ==> SameLabels(between, after, n);
    assert forall n :: n in between ==> SameLabels(between, after, n);
  }

  /** The later cache shows the node as it now is. */
  predicate CaughtUp(w: World, w': World, nodes: map<string, Labels>, n: string) {
    && (n in w.labelNodes <==> n in w'.labelNodes)
    && (n in w'.labelNodes && n in nodes ==> w'.labelNodes[n] == nodes[n])
  }
}
