/** Finding machine UUIDs: the provider-ID indexes of the node and BareMetalHost informers, and the
    lookup that getMachineUUIDs builds on them, over one snapshot of both caches. */
module Providers {
  import opened Text

  const MACHINE_ANNOTATION := "cluster-manager.cdi.io/machine"

  /** An annotation of an unstructured object need not be a string. */
  datatype AnnotationValue = Text(text: string) | NotText

  datatype Annotations = Malformed | Absent | Annotated(values: map<string, AnnotationValue>)

  /** A BareMetalHost; uid is None when metadata.uid is missing or not a string. */
  datatype Host = Host(uid: Option<string>, annotations: Annotations)

  /** Node name -> spec.providerID. */
  type Nodes = map<string, string>

  type Hosts = map<string, Host>

  /** normalizedProviderString: the last piece of the provider ID. */
  function Normalized(providerID: string): string {
    var split := Split(providerID, '/');
    split[|split| - 1]
  }

  function IndexNodeByProviderID(providerID: string): seq<string> {
    if providerID != "" then [Normalized(providerID)] else []
  }

  function IndexBMHByProviderID(host: Host): seq<string> {
    match host.uid
    case Some(uid) => if uid == "" then [] else [uid]
    case None => []
  }

  /** ByIndex on the node indexer. */
  function NodesByIndex(nodes: Nodes, id: string): set<string> {
    set n | n in nodes && id in IndexNodeByProviderID(nodes[n])
  }

  /** ByIndex on the BareMetalHost indexer. */
  function HostsByIndex(hosts: Hosts, id: string): set<string> {
    set h | h in hosts && id in IndexBMHByProviderID(hosts[h])
  }

  /** The machine annotation of a host: "" when there is none, None when it cannot be read. */
  function MachineAnnotation(host: Host): Option<string> {
    match host.annotations
    case Malformed => None
    case Absent => Some("")
    case Annotated(values) =>
      if MACHINE_ANNOTATION !in values then Some("")
      else match values[MACHINE_ANNOTATION]
        case Text(text) => Some(text)
        case NotText => None
  }

  // The index lookups, one provider ID at a time.

  /** How many of these nodes are listed under an ID. */
  ghost function Listed(nodes: Nodes, names: set<string>, id: string): nat {
    |NodesByIndex(nodes, id) * names|
  }

  lemma ListedWithOneMore(nodes: Nodes, names: set<string>, n: string, id: string)
    requires n in nodes && n !in names
    ensures Listed(nodes, names + {n}, id)
         == Listed(nodes, names, id) + if nodes[n] != "" && Normalized(nodes[n]) == id then 1 else 0
  {
    var objs := NodesByIndex(nodes, id);
    if n in objs {
      assert objs * (names + {n}) == objs * names + {n};
    } else {
      assert objs * (names + {n}) == objs * names;
    }
  }

  method ListProviderIDs(nodes: Nodes) returns (ids: seq<string>)
    ensures forall id :: multiset(ids)[id] == |NodesByIndex(nodes, id)|
  {
    ids := [];
    ghost var listed := {};
    var remaining := nodes.Keys;
    while remaining != {}
      invariant listed !! remaining && listed + remaining == nodes.Keys
      invariant forall id :: multiset(ids)[id] == Listed(nodes, listed, id)
      decreases |remaining|
    {
      var n :| n in remaining;
      forall id {
        ListedWithOneMore(nodes, listed, n, id);
      }
      if nodes[n] != "" {
        ids := ids + [Normalized(nodes[n])];
      }
      remaining, listed := remaining - {n}, listed + {n};
    }
    assert forall id :: NodesByIndex(nodes, id) * listed == NodesByIndex(nodes, id);
  }

  lemma OnlyMember(s: set<string>, x: string)
    requires |s| == 1 && x in s
    ensures s == {x}
  {
    assert |s - {x}| == 0;
  }

  /** None is the internal error of several nodes under one ID; "" means no node. */
  method FindNodeNameByProviderID(nodes: Nodes, id: string) returns (r: Option<string>)
    ensures r.None? <==> |NodesByIndex(nodes, id)| > 1
    ensures r.Some? ==> (NodesByIndex(nodes, id) == {} && r.value == "") || NodesByIndex(nodes, id) == {r.value}
  {
    var objs := NodesByIndex(nodes, id);
    if |objs| == 0 {
      return Some("");
    } else if |objs| > 1 {
      return None;
    }
    var n :| n in objs;
    OnlyMember(objs, n);
    return Some(n);
  }

  /** What a provider ID's unique host says; "" when there is no host, None on an internal error. */
  ghost function HostUUID(hosts: Hosts, id: string): Option<string> {
    var objs := HostsByIndex(hosts, id);
    if objs == {} then Some("")
    else
      var h :| h in objs;
      if objs != {h} then None else MachineAnnotation(hosts[h])
  }

  // The same on the hosts themselves, without the index.

  /** h is the only host with this UID. */
  ghost predicate OnlyHost(hosts: Hosts, id: string, h: string) {
    h in hosts && hosts[h].uid == Some(id) && forall h' :: h' in hosts && hosts[h'].uid == Some(id) ==> h' == h
  }

  ghost predicate SeveralHosts(hosts: Hosts, id: string) {
    exists h, h' :: h in hosts && h' in hosts && h != h' && hosts[h].uid == Some(id) && hosts[h'].uid == Some(id)
  }

  /** The host's machine annotation is this text. */
  predicate NamesMachine(host: Host, uuid: string) {
    && host.annotations.Annotated?
    && "cluster-manager.cdi.io/machine" in host.annotations.values
    && host.annotations.values["cluster-manager.cdi.io/machine"] == Text(uuid)
  }

  /** The host's annotations are malformed, or the machine annotation is not a string. */
  predicate Unreadable(host: Host) {
    || host.annotations.Malformed?
    || (host.annotations.Annotated? && "cluster-manager.cdi.io/machine" in host.annotations.values
        && host.annotations.values["cluster-manager.cdi.io/machine"].NotText?)
  }

  /** The only host of a non-empty ID names this machine. */
  ghost predicate MachineOfID(hosts: Hosts, id: string, uuid: string) {
    id != "" && exists h :: OnlyHost(hosts, id, h) && NamesMachine(hosts[h], uuid)
  }

  /** The machine of a non-empty ID cannot be told. */
  ghost predicate MachineUnclear(hosts: Hosts, id: string) {
    id != "" && (SeveralHosts(hosts, id) || exists h :: OnlyHost(hosts, id, h) && Unreadable(hosts[h]))
  }

  lemma HostsUnder(hosts: Hosts, id: string)
    ensures forall h :: h in HostsByIndex(hosts, id) <==> h in hosts && id != "" && hosts[h].uid == Some(id)
  {
  }

  /** What the index lookup says of an ID, on the hosts themselves. */
  lemma HostUUIDOnHosts(hosts: Hosts, id: string)
    ensures HostUUID(hosts, id).None? <==> MachineUnclear(hosts, id)
    ensures forall uuid :: uuid != "" ==> (HostUUID(hosts, id) == Some(uuid) <==> MachineOfID(hosts, id, uuid))
  {
    HostsUnder(hosts, id);
    var objs := HostsByIndex(hosts, id);
    if objs != {} {
      var h :| h in objs;
      if objs == {h} {
        assert forall h' :: h' in objs ==> h' == h;
        assert OnlyHost(hosts, id, h);
      } else {
        assert exists h' :: h' in objs && h' != h;
        var h' :| h' in objs && h' != h;
        assert SeveralHosts(hosts, id);
        assert forall k :: k in objs ==> objs != {k};
      }
    }
  }

  method FindMachineUUIDByProviderID(hosts: Hosts, id: string) returns (r: Option<string>)
    ensures r == HostUUID(hosts, id)
    ensures r.None? <==> MachineUnclear(hosts, id)
    ensures r.Some? && r.value != "" ==> MachineOfID(hosts, id, r.value)
    ensures forall uuid :: uuid != "" && MachineOfID(hosts, id, uuid) ==> r == Some(uuid)
  {
    HostUUIDOnHosts(hosts, id);
    var objs := HostsByIndex(hosts, id);
    if |objs| == 0 {
      return Some("");
    } else if |objs| > 1 {
      return None;
    }
    var h :| h in objs;
    OnlyMember(objs, h);
    return MachineAnnotation(hosts[h]);
  }

  // The whole lookup, and what it should be on the nodes themselves.

  predicate Identified(nodes: Nodes, n: string) {
    n in nodes && nodes[n] != ""
  }

  /** Two nodes with provider IDs that normalise to the same ID. */
  ghost predicate SharedID(nodes: Nodes) {
    exists a, b :: Identified(nodes, a) && Identified(nodes, b) && a != b
        && Normalized(nodes[a]) == Normalized(nodes[b])
  }

  /** What each node with a name and a provider ID should get; None is an error in looking up its host. */
  ghost function Answers(useCapiBmh: bool, nodes: Nodes, hosts: Hosts): map<string, Option<string>> {
    map n | n in nodes && nodes[n] != "" && n != "" ::
      if useCapiBmh then HostUUID(hosts, Normalized(nodes[n])) else Some(Normalized(nodes[n]))
  }

  /** With hosts, a node whose host names no machine gets none. */
  predicate Skipped(useCapiBmh: bool, answer: Option<string>) {
    useCapiBmh && answer == Some("")
  }

  /** getMachineUUIDs as a scan over all nodes, without any index on them. */
  ghost function MachineUUIDs(useCapiBmh: bool, nodes: Nodes, hosts: Hosts): Option<map<string, string>> {
    if SharedID(nodes) then None else Collected(useCapiBmh, Answers(useCapiBmh, nodes, hosts))
  }

  ghost function Collected(useCapiBmh: bool, answers: map<string, Option<string>>): Option<map<string, string>> {
    if exists n :: n in answers && answers[n].None? then None
    else Some(map n | n in answers && !Skipped(useCapiBmh, answers[n]) :: answers[n].value)
  }

  lemma SharedIDInIndex(nodes: Nodes, id: string)
    requires |NodesByIndex(nodes, id)| > 1
    ensures SharedID(nodes)
  {
    var objs := NodesByIndex(nodes, id);
    var a :| a in objs;
    assert |objs - {a}| > 0;
    var b :| b in objs - {a};
    assert Identified(nodes, a) && Identified(nodes, b) && Normalized(nodes[a]) == Normalized(nodes[b]);
  }

  lemma UnsharedIDs(nodes: Nodes, ids: set<string>)
    requires forall id :: id in ids ==> |NodesByIndex(nodes, id)| == 1
    requires forall n :: Identified(nodes, n) ==> Normalized(nodes[n]) in ids
    ensures !SharedID(nodes)
  {
    if a, b :| Identified(nodes, a) && Identified(nodes, b) && a != b && Normalized(nodes[a]) == Normalized(nodes[b]) {
      var objs := NodesByIndex(nodes, Normalized(nodes[a]));
      assert a in objs && b in objs;
      OnlyMember(objs, a);
    }
  }

  ghost predicate OnlyNode(nodes: Nodes, id: string, name: string) {
    forall n :: Identified(nodes, n) && Normalized(nodes[n]) == id <==> n == name
  }

  lemma UniqueNode(nodes: Nodes, id: string, name: string)
    requires |NodesByIndex(nodes, id)| > 0
    requires (NodesByIndex(nodes, id) == {} && name == "") || NodesByIndex(nodes, id) == {name}
    ensures |NodesByIndex(nodes, id)| == 1 && OnlyNode(nodes, id, name)
  {
    assert NodesByIndex(nodes, id) == {name};
    forall n
      ensures Identified(nodes, n) && Normalized(nodes[n]) == id <==> n == name
    {
      assert n in NodesByIndex(nodes, id) <==> n in {name};
    }
  }

  /** What the loop has established once it is through with these provider IDs. */
  ghost predicate Processed(useCapiBmh: bool, nodes: Nodes, answers: map<string, Option<string>>, ids: set<string>,
                            uuids: map<string, string>)
    requires answers.Keys <= nodes.Keys
  {
    && (forall id :: id in ids ==> |NodesByIndex(nodes, id)| == 1)
    && (forall n :: n in answers && Normalized(nodes[n]) in ids ==>
          && answers[n].Some?
          && (n in uuids <==> !Skipped(useCapiBmh, answers[n])))
    && (forall n :: n in uuids ==> n in answers && Normalized(nodes[n]) in ids && answers[n] == Some(uuids[n]))
  }

  lemma ProcessedStep(useCapiBmh: bool, nodes: Nodes, answers: map<string, Option<string>>, ids: set<string>,
                      uuids: map<string, string>, id: string, name: string, uuids': map<string, string>)
    requires answers.Keys <= nodes.Keys && Processed(useCapiBmh, nodes, answers, ids, uuids)
    requires |NodesByIndex(nodes, id)| == 1
    requires OnlyNode(nodes, id, name)
    requires forall n :: n in answers ==> Identified(nodes, n)
    requires name in answers ==> answers[name].Some?
    requires uuids' == if name !in answers || Skipped(useCapiBmh, answers[name]) then uuids
             else uuids[name := answers[name].value]
    ensures Processed(useCapiBmh, nodes, answers, ids + {id}, uuids')
  {
  }

  /** The two lookups for one listed provider ID: its node and, with hosts, the host's machine. */
  method MachineFor(useCapiBmh: bool, nodes: Nodes, hosts: Hosts, id: string)
    returns (failed: bool, nodeName: string, uuid: string)
    requires |NodesByIndex(nodes, id)| > 0
    ensures failed ==> MachineUUIDs(useCapiBmh, nodes, hosts) == None
    ensures !failed ==> |NodesByIndex(nodes, id)| == 1 && OnlyNode(nodes, id, nodeName)
    ensures !failed && nodeName in Answers(useCapiBmh, nodes, hosts) ==>
            Answers(useCapiBmh, nodes, hosts)[nodeName] == Some(uuid)
    ensures !failed ==> (nodeName != "" <==> nodeName in Answers(useCapiBmh, nodes, hosts))
  {
    failed, nodeName, uuid := false, "", id;
    var found := FindNodeNameByProviderID(nodes, id);
    if found.None? {
      SharedIDInIndex(nodes, id);
      failed := true;
      return;
    }
    nodeName := found.value;
    UniqueNode(nodes, id, nodeName);
    if nodeName != "" && useCapiBmh {
      var annotated := FindMachineUUIDByProviderID(hosts, id);
      if annotated.None? {
        assert Answers(useCapiBmh, nodes, hosts)[nodeName] == None;
        failed := true;
        return;
      }
      uuid := annotated.value;
    }
  }

  method GetMachineUUIDs(useCapiBmh: bool, nodes: Nodes, hosts: Hosts) returns (r: Option<map<string, string>>)
    ensures r == MachineUUIDs(useCapiBmh, nodes, hosts)
  {
    var providerIDs := ListProviderIDs(nodes);
    var uuids: map<string, string> := map[];
    ghost var answers, ids := Answers(useCapiBmh, nodes, hosts), {};
    for i := 0 to |providerIDs|
      invariant forall j :: 0 <= j < i ==> providerIDs[j] in ids
      invariant Processed(useCapiBmh, nodes, answers, ids, uuids)
    {
      assert multiset(providerIDs)[providerIDs[i]] > 0;
      var failed, nodeName, uuid := MachineFor(useCapiBmh, nodes, hosts, providerIDs[i]);
      if failed {
        return None;
      }
      ghost var before := uuids;
      if nodeName != "" && !(useCapiBmh && uuid == "") {
        uuids := uuids[nodeName := uuid];
      }
      ProcessedStep(useCapiBmh, nodes, answers, ids, before, providerIDs[i], nodeName, uuids);
      ids := ids + {providerIDs[i]};
    }
    AllListed(nodes, providerIDs, ids);
    UnsharedIDs(nodes, ids);
    AllCollected(useCapiBmh, nodes, answers, ids, uuids);
    return Some(uuids);
  }

  lemma AllCollected(useCapiBmh: bool, nodes: Nodes, answers: map<string, Option<string>>, ids: set<string>,
                     uuids: map<string, string>)
    requires answers.Keys <= nodes.Keys && Processed(useCapiBmh, nodes, answers, ids, uuids)
    requires forall n :: n in answers ==> Normalized(nodes[n]) in ids
    ensures Collected(useCapiBmh, answers) == Some(uuids)
  {
    assert Collected(useCapiBmh, answers).value == uuids;
  }

  lemma AllListed(nodes: Nodes, providerIDs: seq<string>, ids: set<string>)
    requires forall id :: multiset(providerIDs)[id] == |NodesByIndex(nodes, id)|
    requires forall j :: 0 <= j < |providerIDs| ==> providerIDs[j] in ids
    ensures forall n :: Identified(nodes, n) ==> Normalized(nodes[n]) in ids
  {
    forall n | Identified(nodes, n)
      ensures Normalized(nodes[n]) in ids
    {
      assert n in NodesByIndex(nodes, Normalized(nodes[n]));
      assert multiset(providerIDs)[Normalized(nodes[n])] > 0;
    }
  }

  /** The ID of a node: the text after the last slash of its provider ID. */
  function IDOf(nodes: Nodes, n: string): string
    requires n in nodes
  {
    AfterLast(nodes[n], '/')
  }

  /** Two nodes with provider IDs that agree after their last slash. */
  ghost predicate SameID(nodes: Nodes) {
    exists a, b :: a in nodes && b in nodes && a != b && nodes[a] != "" && nodes[b] != "" && IDOf(nodes, a) == IDOf(nodes, b)
  }

  lemma NormalizedIsID(nodes: Nodes)
    ensures forall n :: n in nodes ==> Normalized(nodes[n]) == IDOf(nodes, n)
    ensures SharedID(nodes) <==> SameID(nodes)
  {
    forall n | n in nodes
      ensures Normalized(nodes[n]) == IDOf(nodes, n)
    {
      LastPieceIsAfterLast(nodes[n], '/');
    }
    if SharedID(nodes) {
      var a, b :| Identified(nodes, a) && Identified(nodes, b) && a != b && Normalized(nodes[a]) == Normalized(nodes[b]);
      assert IDOf(nodes, a) == IDOf(nodes, b);
    }
    if SameID(nodes) {
      var a, b :| a in nodes && b in nodes && a != b && nodes[a] != "" && nodes[b] != "" && IDOf(nodes, a) == IDOf(nodes, b);
      assert Identified(nodes, a) && Identified(nodes, b) && Normalized(nodes[a]) == Normalized(nodes[b]);
    }
  }

  /** Without hosts: an error exactly when two nodes share an ID, and otherwise an injective map from every named node
      with a provider ID to the text after its last slash. */
  lemma UUIDsWithoutHosts(nodes: Nodes, hosts: Hosts)
    ensures MachineUUIDs(false, nodes, hosts).None? <==> SameID(nodes)
    ensures !SameID(nodes) ==> AfterLastSlash(nodes, MachineUUIDs(false, nodes, hosts).value)
  {
    NormalizedIsID(nodes);
  }

  ghost predicate AfterLastSlash(nodes: Nodes, uuids: map<string, string>) {
    && (forall n :: n in uuids <==> n in nodes && nodes[n] != "" && n != "")
    && (forall n :: n in uuids ==> uuids[n] == AfterLast(nodes[n], '/'))
    && (forall a, b :: a in uuids && b in uuids && uuids[a] == uuids[b] ==> a == b)
  }

  /** With hosts: a successful result maps a node to a UUID exactly when the node's ID has a single host and that host
      names the machine, with a non-empty UUID. */
  lemma UUIDsWithHosts(nodes: Nodes, hosts: Hosts, n: string, uuid: string)
    requires MachineUUIDs(true, nodes, hosts).Some?
    ensures var r := MachineUUIDs(true, nodes, hosts).value;
            (n in r && r[n] == uuid) <==>
            n in nodes && n != "" && nodes[n] != "" && uuid != "" && MachineOfID(hosts, IDOf(nodes, n), uuid)
  {
    NormalizedIsID(nodes);
    if n in nodes && nodes[n] != "" && n != "" {
      assert n in Answers(true, nodes, hosts);
      HostUUIDOnHosts(hosts, IDOf(nodes, n));
    }
  }

  ghost predicate NodeUnclear(nodes: Nodes, hosts: Hosts, n: string) {
    n in nodes && n != "" && nodes[n] != "" && MachineUnclear(hosts, IDOf(nodes, n))
  }

  lemma AnswerOfNode(nodes: Nodes, hosts: Hosts, n: string)
    ensures var answers := Answers(true, nodes, hosts);
            n in answers && answers[n].None? <==> NodeUnclear(nodes, hosts, n)
  {
    NormalizedIsID(nodes);
    if n in Answers(true, nodes, hosts) {
      HostUUIDOnHosts(hosts, IDOf(nodes, n));
    }
  }

  ghost predicate SomeUnclear(nodes: Nodes, hosts: Hosts) {
    exists n :: NodeUnclear(nodes, hosts, n)
  }

  lemma SomeAnswerFails(nodes: Nodes, hosts: Hosts)
    ensures Collected(true, Answers(true, nodes, hosts)).None? <==> SomeUnclear(nodes, hosts)
  {
    var answers := Answers(true, nodes, hosts);
    if n :| n in answers && answers[n].None? {
      AnswerOfNode(nodes, hosts, n);
    } else if n :| NodeUnclear(nodes, hosts, n) {
      AnswerOfNode(nodes, hosts, n);
    }
  }

  /** With hosts: an error exactly when two nodes share an ID, or the machine of some named node cannot be told. */
  lemma UUIDErrorsWithHosts(nodes: Nodes, hosts: Hosts)
    ensures MachineUUIDs(true, nodes, hosts).None? <==> SameID(nodes) || SomeUnclear(nodes, hosts)
  {
    NormalizedIsID(nodes);
    SomeAnswerFails(nodes, hosts);
  }
}
