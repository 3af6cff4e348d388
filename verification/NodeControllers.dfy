/** The node claim controller: the store it keeps and the Get-then-Update loops it
    runs over the nodes of a zone.  `cluster` stands for the nodes in the API server;
    `failing` says which calls of a pass fail. */
module NodeControllers {
  import opened Sequences
  import opened Pools
  import opened Batches
  import opened NodeStores
  import opened NodePasses
  import opened Informer
  import opened Schedules

  function AddedAll(store: Store, listed: seq<Object>): Store
    decreases |listed|
  {
    if listed == [] then store else AddedAll(Added(store, ReadListed(listed[0])), listed[1..])
  }

  /** Claim `i` is the last in the list to report node `n`. */
  ghost predicate LastToReport(listed: seq<Object>, i: int, n: string) {
    0 <= i < |listed| && Reports(listed[i], n) && forall j :: i < j < |listed| ==> !Reports(listed[j], n)
  }

  /** What adding the listed claims one by one comes to, for every node name: the last
      claim that reports it decides. */
  lemma {:induction false} AddedAllIs(store: Store, listed: seq<Object>)
    ensures var end := AddedAll(store, listed);
      && (forall n :: n in end <==> n in store || exists i :: 0 <= i < |listed| && Reports(listed[i], n))
      && (forall n :: n in store && (forall i :: 0 <= i < |listed| ==> !Reports(listed[i], n)) ==> end[n] == store[n])
      && (forall n, i :: LastToReport(listed, i, n) ==> n in end && ListedUnder(listed[i], end[n].availabilityZone))
    decreases |listed|
  {
    forall n {
      AddedAllOn(store, listed, n);
    }
  }

  lemma {:induction false} AddedAllOn(store: Store, listed: seq<Object>, n: string)
    ensures var end := AddedAll(store, listed);
      && (n in end <==> n in store || exists i :: 0 <= i < |listed| && Reports(listed[i], n))
      && (n in store && (forall i :: 0 <= i < |listed| ==> !Reports(listed[i], n)) ==> end[n] == store[n])
      && (forall i :: LastToReport(listed, i, n) ==> n in end && ListedUnder(listed[i], end[n].availabilityZone))
    decreases |listed|
  {
    if listed != [] {
      var rest, next := listed[1..], Added(store, ReadListed(listed[0]));
      AddedAllOn(next, rest, n);
      assert forall i :: 0 <= i < |rest| ==> rest[i] == listed[i + 1];
      assert (exists i :: 0 <= i < |rest| && Reports(rest[i], n)) ==>
          exists i :: 0 <= i < |listed| && Reports(listed[i], n) by {
        if i :| 0 <= i < |rest| && Reports(rest[i], n) { assert Reports(listed[i + 1], n); }
      }
      forall i | LastToReport(listed, i, n)
        ensures n in AddedAll(next, rest) && ListedUnder(listed[i], AddedAll(next, rest)[n].availabilityZone)
      {
        if i > 0 {
          assert LastToReport(rest, i - 1, n);
        }
      }
    }
  }

  /** The initialiser's loop is its part in the race, run to the end without interference. */
  lemma {:induction false} InitialiserRuns(w: World, listed: seq<Object>)
    requires w.initialiser == Informer.Initialiser.Adding(listed)
    ensures var steps := seq(|listed| + 1, _ => Informer.AddListed);
      && Informer.ValidRun(w, steps)
      && Informer.Run(w, steps) == w.(store := AddedAll(w.store, listed), initialiser := Informer.Stopped)
    decreases |listed|
  {
    var steps := seq(|listed| + 1, _ => Informer.AddListed);
    var next := Informer.Apply(w, Informer.AddListed);
    if listed == [] {
      assert steps[1..] == [];
    } else {
      assert steps[1..] == seq(|listed|, _ => Informer.AddListed);
      InitialiserRuns(next, listed[1..]);
    }
  }

  /** One edit of one node; a node that is not there cannot be read. */
  function EditedIn(cluster: Nodes, program: Program, edit: Edit, name: string, failing: set<Call>): Nodes {
    if name in cluster then cluster[name := AfterEdit(program, edit, name, cluster[name], failing)] else cluster
  }

  predicate EditOk(cluster: Nodes, program: Program, edit: Edit, name: string, failing: set<Call>) {
    name in cluster && Succeeds(program, edit, name, cluster[name], failing)
  }

  /** The error about an empty zone, or what the batch runner returned. */
  datatype PassResult = NoNodes | Ran(err: GoError)

  class NodeClaimController {
    const nodeStore: NodeStore
    var cluster: Nodes

    constructor (nodeStore: NodeStore, cluster: Nodes)
      ensures this.nodeStore == nodeStore && this.cluster == cluster
    {
      this.nodeStore := nodeStore;
      this.cluster := cluster;
    }

    // ----- feeding the store -----

    method ProcessNodeClaim(obj: Object, isDelete: bool)
      requires nodeStore.Valid()
      modifies nodeStore
      ensures nodeStore.Valid() && nodeStore.nodes == Processed(old(nodeStore.nodes), obj, isDelete)
      ensures !Complete(obj) ==> nodeStore.nodes == old(nodeStore.nodes)
      ensures Complete(obj) && isDelete ==>
        nodeStore.nodes == old(nodeStore.nodes) - {obj.status.value.nodeName.value}
      ensures Complete(obj) && !isDelete ==>
        exists zone :: EventUnder(obj.metadata.value.labels.value, zone) &&
          nodeStore.nodes == old(nodeStore.nodes)[obj.status.value.nodeName.value :=
                                                  NodeInfo(obj.status.value.nodeName.value, zone)]
    {
      if obj.Tombstone? || obj.metadata.None? || obj.status.None? {
        return;
      }
      if obj.status.value.nodeName.None? || obj.status.value.nodeName.value == "" {
        return;
      }
      var nodeName := obj.status.value.nodeName.value;
      if obj.metadata.value.labels.None? {
        return;
      }
      var labels := obj.metadata.value.labels.value;
      var az := if TOPOLOGY_LABEL in labels then labels[TOPOLOGY_LABEL] else "";
      if az == "" {
        az := if LEGACY_LABEL in labels then labels[LEGACY_LABEL] else "";
      }
      assert EventUnder(labels, az);
      if isDelete {
        nodeStore.RemoveNode(nodeName);
      } else {
        nodeStore.AddNode(nodeName, az);
      }
    }

    /** The add loop of the initialiser, once the claims have been listed. */
    method InitializeStore(nodeClaims: seq<Object>)
      requires nodeStore.Valid()
      modifies nodeStore
      ensures nodeStore.Valid() && nodeStore.nodes == AddedAll(old(nodeStore.nodes), nodeClaims)
      ensures forall n :: n in nodeStore.nodes <==>
        n in old(nodeStore.nodes) || exists i :: 0 <= i < |nodeClaims| && Reports(nodeClaims[i], n)
      ensures forall n :: n in old(nodeStore.nodes) &&
                          (forall i :: 0 <= i < |nodeClaims| ==> !Reports(nodeClaims[i], n)) ==>
        nodeStore.nodes[n] == old(nodeStore.nodes)[n]
      ensures forall n, i :: LastToReport(nodeClaims, i, n) ==>
        n in nodeStore.nodes && ListedUnder(nodeClaims[i], nodeStore.nodes[n].availabilityZone)
    {
      AddedAllIs(nodeStore.nodes, nodeClaims);
      for k := 0 to |nodeClaims|
        invariant nodeStore.Valid()
        invariant AddedAll(nodeStore.nodes, nodeClaims[k..]) == AddedAll(old(nodeStore.nodes), nodeClaims)
      {
        var claim := nodeClaims[k];
        assert nodeClaims[k..][0] == claim && nodeClaims[k..][1..] == nodeClaims[k + 1..];
        var nodeName := NodeNameOf(claim);
        if nodeName == "" {
          continue;
        }
        var az := "";
        if claim.metadata.Some? && claim.metadata.value.labels.Some? {
          var labels := claim.metadata.value.labels.value;
          if TOPOLOGY_LABEL in labels {
            az := labels[TOPOLOGY_LABEL];
          } else if LEGACY_LABEL in labels {
            az := labels[LEGACY_LABEL];
          }
        }
        nodeStore.AddNode(nodeName, az);
      }
    }

    // ----- single edits -----

    method AnnotateNode(name: string, failing: set<Call>) returns (ok: bool)
      modifies this
      ensures cluster == EditedIn(old(cluster), Protect, First, name, failing)
      ensures ok == EditOk(old(cluster), Protect, First, name, failing)
      ensures ok <==> name in old(cluster) && Get(name, First) !in failing && Put(name, First) !in failing
      ensures cluster == if !ok then old(cluster) else
        old(cluster)[name := old(cluster)[name].(
          annotations := old(cluster)[name].annotations["karpenter.sh/do-not-disrupt" := "true"])]
    {
      if name !in cluster || Get(name, First) in failing {
        return false;
      }
      var node := cluster[name];
      node := node.(annotations := node.annotations[DO_NOT_DISRUPT := "true"]);
      ok := Put(name, First) !in failing;
      if ok {
        cluster := cluster[name := node];
      }
    }

    method CordonNode(name: string, failing: set<Call>) returns (ok: bool)
      modifies this
      ensures cluster == EditedIn(old(cluster), Protect, Second, name, failing)
      ensures ok == EditOk(old(cluster), Protect, Second, name, failing)
      ensures ok <==> name in old(cluster) && Get(name, Second) !in failing && Put(name, Second) !in failing
      ensures cluster ==
        if !ok then old(cluster) else old(cluster)[name := old(cluster)[name].(unschedulable := true)]
    {
      if name !in cluster || Get(name, Second) in failing {
        return false;
      }
      var node := cluster[name].(unschedulable := true);
      ok := Put(name, Second) !in failing;
      if ok {
        cluster := cluster[name := node];
      }
    }

    method RemoveAnnotation(name: string, failing: set<Call>) returns (ok: bool)
      modifies this
      ensures cluster == EditedIn(old(cluster), Unprotect, First, name, failing)
      ensures ok == EditOk(old(cluster), Unprotect, First, name, failing)
      ensures ok <==> name in old(cluster) && Get(name, First) !in failing &&
                      ("karpenter.sh/do-not-disrupt" in old(cluster)[name].annotations ==> Put(name, First) !in failing)
      ensures cluster == if !ok then old(cluster) else
        old(cluster)[name := old(cluster)[name].(
          annotations := old(cluster)[name].annotations - {"karpenter.sh/do-not-disrupt"})]
    {
      if name !in cluster || Get(name, First) in failing {
        return false;
      }
      var node := cluster[name];
      if DO_NOT_DISRUPT !in node.annotations {
        assert node.annotations - {DO_NOT_DISRUPT} == node.annotations;
        return true;
      }
      node := node.(annotations := node.annotations - {DO_NOT_DISRUPT});
      ok := Put(name, First) !in failing;
      if ok {
        cluster := cluster[name := node];
      }
    }

    method UncordonNode(name: string, failing: set<Call>) returns (ok: bool)
      modifies this
      ensures cluster == EditedIn(old(cluster), Unprotect, Second, name, failing)
      ensures ok == EditOk(old(cluster), Unprotect, Second, name, failing)
      ensures ok <==> name in old(cluster) && Get(name, Second) !in failing &&
                      (old(cluster)[name].unschedulable ==> Put(name, Second) !in failing)
      ensures cluster ==
        if !ok then old(cluster) else old(cluster)[name := old(cluster)[name].(unschedulable := false)]
    {
      if name !in cluster || Get(name, Second) in failing {
        return false;
      }
      var node := cluster[name];
      if !node.unschedulable {
        return true;
      }
      node := node.(unschedulable := false);
      ok := Put(name, Second) !in failing;
      if ok {
        cluster := cluster[name := node];
      }
    }

    // ----- what a worker does with its batch -----

    method ProtectBatch(batch: seq<NodeInfo>, failing: set<Call>)
      requires NoDuplicates(NodeNames(batch))
      modifies this
      ensures cluster == AfterPass(Protect, old(cluster), NameSet(NodeNames(batch)), failing)
    {
      NoNames(Protect, cluster, failing);
      for k := 0 to |batch|
        invariant cluster == AfterPass(Protect, old(cluster), NameSet(NodeNames(batch[..k])), failing)
      {
        var name := batch[k].nodeName;
        OneMoreName(batch, k);
        AfterOneMore(Protect, old(cluster), NameSet(NodeNames(batch[..k])), name, failing);
        if name == "" {
          continue;
        }
        var ok := AnnotateNode(name, failing);
        if !ok {
          continue;
        }
        ok := CordonNode(name, failing);
      }
      assert batch[..|batch|] == batch;
    }

    method UnprotectBatch(batch: seq<NodeInfo>, failing: set<Call>)
      requires NoDuplicates(NodeNames(batch))
      modifies this
      ensures cluster == AfterPass(Unprotect, old(cluster), NameSet(NodeNames(batch)), failing)
    {
      NoNames(Unprotect, cluster, failing);
      for k := 0 to |batch|
        invariant cluster == AfterPass(Unprotect, old(cluster), NameSet(NodeNames(batch[..k])), failing)
      {
        var name := batch[k].nodeName;
        OneMoreName(batch, k);
        AfterOneMore(Unprotect, old(cluster), NameSet(NodeNames(batch[..k])), name, failing);
        if name == "" {
          continue;
        }
        var ok := RemoveAnnotation(name, failing);
        if !ok {
          continue;
        }
        ok := UncordonNode(name, failing);
      }
      assert batch[..|batch|] == batch;
    }

    /** The batch runner over the nodes listed, with the workers of all batches interleaved. */
    method ProcessInBatches(program: Program, infos: seq<NodeInfo>, failing: set<Call>, pick: Scheduler)
      returns (err: GoError)
      requires NoDuplicates(NodeNames(infos)) && Picks(pick)
      modifies this
      ensures err == None && cluster == AfterPass(program, old(cluster), NameSet(NodeNames(infos)), failing)
    {
      var names := NodeNames(infos);
      var batches := Partition(names);
      err, cluster := Execute(Job(program, batches, failing), names, cluster, pick);
    }

    method AnnotateAndCordonNodes(az: string, failing: set<Call>, pick: Scheduler) returns (result: PassResult)
      requires nodeStore.Valid() && Picks(pick)
      modifies this
      ensures result == if InZone(nodeStore.nodes, az) == {} then NoNodes else Ran(None)
      ensures cluster == AfterPass(Protect, old(cluster), InZone(nodeStore.nodes, az), failing)
      ensures forall n :: n in old(cluster) &&
                          (n !in nodeStore.nodes || (az != "" && nodeStore.nodes[n].availabilityZone != az)) ==>
        n in cluster && cluster[n] == old(cluster)[n]
      ensures forall n :: n in old(cluster) && n != "" && n in nodeStore.nodes &&
                          (az == "" || nodeStore.nodes[n].availabilityZone == az) ==>
        && n in cluster && cluster[n].taints == old(cluster)[n].taints
        && (cluster[n].unschedulable <==> old(cluster)[n].unschedulable || AllGoThrough(n, failing))
        && cluster[n].annotations ==
           (if FirstGoesThrough(n, failing) then old(cluster)[n].annotations["karpenter.sh/do-not-disrupt" := "true"]
            else old(cluster)[n].annotations)
    {
      ProtectedInZone(nodeStore.nodes, az, cluster, failing);
      var infos := nodeStore.GetNodesByAZ(az);
      NoNames(Protect, cluster, failing);
      if |infos| == 0 {
        return NoNodes;
      }
      assert NodeNames(infos)[0] in NameSet(NodeNames(infos));
      var err := ProcessInBatches(Protect, infos, failing, pick);
      return Ran(err);
    }

    method RemoveProtectionFromNodes(az: string, failing: set<Call>, pick: Scheduler) returns (result: PassResult)
      requires nodeStore.Valid() && Picks(pick)
      modifies this
      ensures result == if InZone(nodeStore.nodes, az) == {} then NoNodes else Ran(None)
      ensures cluster == AfterPass(Unprotect, old(cluster), InZone(nodeStore.nodes, az), failing)
      ensures forall n :: n in old(cluster) &&
                          (n !in nodeStore.nodes || (az != "" && nodeStore.nodes[n].availabilityZone != az)) ==>
        n in cluster && cluster[n] == old(cluster)[n]
      ensures failing == {} ==>
        forall n :: n in old(cluster) && n != "" && n in nodeStore.nodes &&
                    (az == "" || nodeStore.nodes[n].availabilityZone == az) ==>
          && n in cluster
          && cluster[n] == old(cluster)[n].(
               annotations := old(cluster)[n].annotations - {"karpenter.sh/do-not-disrupt"}, unschedulable := false)
    {
      UnprotectedInZone(nodeStore.nodes, az, cluster, failing);
      var infos := nodeStore.GetNodesByAZ(az);
      NoNames(Unprotect, cluster, failing);
      if |infos| == 0 {
        return NoNodes;
      }
      assert NodeNames(infos)[0] in NameSet(NodeNames(infos));
      var err := ProcessInBatches(Unprotect, infos, failing, pick);
      return Ran(err);
    }

    // ----- taints -----

    method TaintNodesInAZ(az: string, failing: set<Call>)
      requires nodeStore.Valid()
      modifies this
      ensures cluster == TaintPass(old(cluster), InZone(nodeStore.nodes, az), az, failing)
      ensures forall n :: n in old(cluster) &&
                          (n !in nodeStore.nodes || (az != "" && nodeStore.nodes[n].availabilityZone != az)) ==>
        n in cluster && cluster[n] == old(cluster)[n]
      ensures forall n :: n in old(cluster) && n != "" && n in nodeStore.nodes &&
                          (az == "" || nodeStore.nodes[n].availabilityZone == az) ==>
        && n in cluster
        && cluster[n] ==
           (if ShiftTainted(old(cluster)[n]) || !FirstGoesThrough(n, failing) then old(cluster)[n]
            else old(cluster)[n].(taints := old(cluster)[n].taints
                                            + [Taint("zonal-autoshift.eks.amazonaws.com/away-zone", az, "NoExecute")]))
    {
      TaintedInZone(nodeStore.nodes, az, cluster, failing);
      var infos := nodeStore.GetNodesByAZ(az);
      TaintListed(infos, az, failing);
    }

    method TaintListed(infos: seq<NodeInfo>, az: string, failing: set<Call>)
      requires NoDuplicates(NodeNames(infos))
      modifies this
      ensures cluster == TaintPass(old(cluster), NameSet(NodeNames(infos)), az, failing)
    {
      NoNamesTainted(cluster, az, failing);
      for k := 0 to |infos|
        invariant cluster == TaintPass(old(cluster), NameSet(NodeNames(infos[..k])), az, failing)
      {
        var name := infos[k].nodeName;
        OneMoreName(infos, k);
        TaintOneMore(old(cluster), NameSet(NodeNames(infos[..k])), az, name, failing);
        if name == "" || name !in cluster || Get(name, First) in failing {
          continue;
        }
        var node := cluster[name];
        var taintExists := HasTaint(node.taints, ZONAL_SHIFT_TAINT_KEY);
        if !taintExists {
          node := node.(taints := node.taints + [Taint(ZONAL_SHIFT_TAINT_KEY, az, "NoExecute")]);
          if Put(name, First) !in failing {
            cluster := cluster[name := node];
          }
        }
      }
      assert infos[..|infos|] == infos;
    }

    method RemoveTaintFromNodes(az: string, failing: set<Call>)
      requires nodeStore.Valid()
      modifies this
      ensures cluster == UntaintPass(old(cluster), InZone(nodeStore.nodes, az), failing)
      ensures forall n :: n in old(cluster) &&
                          (n !in nodeStore.nodes || (az != "" && nodeStore.nodes[n].availabilityZone != az)) ==>
        n in cluster && cluster[n] == old(cluster)[n]
      ensures forall n :: n in old(cluster) && n != "" && n in nodeStore.nodes &&
                          (az == "" || nodeStore.nodes[n].availabilityZone == az) ==>
        && n in cluster
        && (ShiftTainted(cluster[n]) <==> ShiftTainted(old(cluster)[n]) && !FirstGoesThrough(n, failing))
        && (!ShiftTainted(old(cluster)[n]) || !FirstGoesThrough(n, failing) ==> cluster[n] == old(cluster)[n])
    {
      UntaintedInZone(nodeStore.nodes, az, cluster, failing);
      var infos := nodeStore.GetNodesByAZ(az);
      UntaintListed(infos, failing);
    }

    method UntaintListed(infos: seq<NodeInfo>, failing: set<Call>)
      requires NoDuplicates(NodeNames(infos))
      modifies this
      ensures cluster == UntaintPass(old(cluster), NameSet(NodeNames(infos)), failing)
    {
      NoNamesTainted(cluster, "", failing);
      for k := 0 to |infos|
        invariant cluster == UntaintPass(old(cluster), NameSet(NodeNames(infos[..k])), failing)
      {
        var name := infos[k].nodeName;
        OneMoreName(infos, k);
        UntaintOneMore(old(cluster), NameSet(NodeNames(infos[..k])), name, failing);
        if name == "" || name !in cluster || Get(name, First) in failing {
          continue;
        }
        var node := cluster[name];
        var newTaints := StripTaint(node.taints, ZONAL_SHIFT_TAINT_KEY);
        if |newTaints| != |node.taints| {
          node := node.(taints := newTaints);
          if Put(name, First) !in failing {
            cluster := cluster[name := node];
          }
        }
      }
      assert infos[..|infos|] == infos;
    }
  }

  method HasTaint(taints: seq<Taint>, key: string) returns (found: bool)
    ensures found == HasKey(taints, key)
  {
    found := false;
    for k := 0 to |taints|
      invariant !found && forall j :: 0 <= j < k ==> taints[j].key != key
    {
      if taints[k].key == key {
        return true;
      }
    }
  }

  method StripTaint(taints: seq<Taint>, key: string) returns (kept: seq<Taint>)
    ensures kept == Stripped(taints, key)
  {
    kept := [];
    for k := 0 to |taints|
      invariant kept == Stripped(taints[..k], key)
    {
      StrippedAppend(taints[..k], taints[k], key);
      assert taints[..k] + [taints[k]] == taints[..k + 1];
      if taints[k].key != key {
        kept := kept + [taints[k]];
      }
    }
    assert taints[..|taints|] == taints;
  }

  // ----- passes over the nodes of a zone, entry by entry of the store -----

  /** Protecting the nodes of a zone. */
  lemma ProtectedInZone(tracked: Store, az: string, nodes: Nodes, failing: set<Call>)
    ensures var now := AfterPass(Protect, nodes, InZone(tracked, az), failing);
      && now.Keys == nodes.Keys
      && forall n :: n in nodes ==>
           if n in tracked && (az == "" || tracked[n].availabilityZone == az) && n != "" then
             && now[n].taints == nodes[n].taints
             && (now[n].unschedulable <==> nodes[n].unschedulable || AllGoThrough(n, failing))
             && now[n].annotations ==
                (if FirstGoesThrough(n, failing) then nodes[n].annotations["karpenter.sh/do-not-disrupt" := "true"]
                 else nodes[n].annotations)
           else now[n] == nodes[n]
  {
    forall n | n in nodes && n != "" {
      ProtectNodeIs(n, nodes[n], failing);
    }
  }

  lemma UnprotectedInZone(tracked: Store, az: string, nodes: Nodes, failing: set<Call>)
    ensures var now := AfterPass(Unprotect, nodes, InZone(tracked, az), failing);
      && now.Keys == nodes.Keys
      && forall n :: n in nodes ==>
           if n in tracked && (az == "" || tracked[n].availabilityZone == az) && n != "" then
             failing == {} ==>
               now[n] == Node(nodes[n].annotations - {"karpenter.sh/do-not-disrupt"}, false, nodes[n].taints)
           else now[n] == nodes[n]
  {
    forall n | n in nodes && n != "" {
      UnprotectNodeIs(n, nodes[n], failing);
    }
  }

  lemma TaintedInZone(tracked: Store, az: string, nodes: Nodes, failing: set<Call>)
    ensures var now := TaintPass(nodes, InZone(tracked, az), az, failing);
      && now.Keys == nodes.Keys
      && forall n :: n in nodes ==>
           now[n] ==
             if n in tracked && (az == "" || tracked[n].availabilityZone == az) && n != ""
                && !ShiftTainted(nodes[n]) && FirstGoesThrough(n, failing)
             then nodes[n].(taints := nodes[n].taints
                                      + [Taint("zonal-autoshift.eks.amazonaws.com/away-zone", az, "NoExecute")])
             else nodes[n]
  {
    forall n | n in nodes && n != "" && n in InZone(tracked, az) {
      TaintNodeIs(nodes, InZone(tracked, az), az, failing, n);
    }
  }

  lemma UntaintedInZone(tracked: Store, az: string, nodes: Nodes, failing: set<Call>)
    ensures var now := UntaintPass(nodes, InZone(tracked, az), failing);
      && now.Keys == nodes.Keys
      && forall n :: n in nodes ==>
           if n in tracked && (az == "" || tracked[n].availabilityZone == az) && n != "" then
             && (ShiftTainted(now[n]) <==> ShiftTainted(nodes[n]) && !FirstGoesThrough(n, failing))
             && (!ShiftTainted(nodes[n]) || !FirstGoesThrough(n, failing) ==> now[n] == nodes[n])
           else now[n] == nodes[n]
  {
    forall n | n in nodes && n != "" && n in InZone(tracked, az) {
      UntaintNodeIs(nodes, InZone(tracked, az), failing, n);
    }
  }

  // ----- one more node -----

  lemma OneMoreName(infos: seq<NodeInfo>, k: nat)
    requires k < |infos| && NoDuplicates(NodeNames(infos))
    ensures NameSet(NodeNames(infos[..k + 1])) == NameSet(NodeNames(infos[..k])) + {infos[k].nodeName}
    ensures infos[k].nodeName !in NameSet(NodeNames(infos[..k]))
  {
    NameSetAppend(NodeNames(infos[..k]), infos[k].nodeName);
    assert NodeNames(infos[..k + 1]) == NodeNames(infos[..k]) + [infos[k].nodeName];
    assert forall i :: 0 <= i < k ==> NodeNames(infos[..k])[i] == NodeNames(infos)[i];
    assert NodeNames(infos)[k] == infos[k].nodeName;
  }

  lemma NoNames(program: Program, nodes: Nodes, failing: set<Call>)
    ensures AfterPass(program, nodes, {}, failing) == nodes
  {
  }

  lemma NoNamesTainted(nodes: Nodes, az: string, failing: set<Call>)
    ensures TaintPass(nodes, {}, az, failing) == nodes && UntaintPass(nodes, {}, failing) == nodes
  {
  }

  lemma AfterOneMore(program: Program, nodes: Nodes, names: set<string>, n: string, failing: set<Call>)
    requires n !in names
    ensures AfterPass(program, nodes, names + {n}, failing) ==
      if n in nodes then AfterPass(program, nodes, names, failing)[n := AfterNode(program, n, nodes[n], failing)]
        else AfterPass(program, nodes, names, failing)
    ensures n in nodes ==> AfterPass(program, nodes, names, failing)[n] == nodes[n]
  {
  }

  lemma TaintOneMore(nodes: Nodes, names: set<string>, az: string, n: string, failing: set<Call>)
    requires n !in names
    ensures TaintPass(nodes, names + {n}, az, failing) ==
      if n in nodes && n != "" && Get(n, First) !in failing && Put(n, First) !in failing
      then TaintPass(nodes, names, az, failing)[n := Tainted(nodes[n], az)] else TaintPass(nodes, names, az, failing)
    ensures n in nodes ==> TaintPass(nodes, names, az, failing)[n] == nodes[n]
  {
  }

  lemma UntaintOneMore(nodes: Nodes, names: set<string>, n: string, failing: set<Call>)
    requires n !in names
    ensures UntaintPass(nodes, names + {n}, failing) ==
      if n in nodes && n != "" && Get(n, First) !in failing && Put(n, First) !in failing
      then UntaintPass(nodes, names, failing)[n := Untainted(nodes[n])] else UntaintPass(nodes, names, failing)
    ensures n in nodes ==> UntaintPass(nodes, names, failing)[n] == nodes[n]
  {
  }
}
