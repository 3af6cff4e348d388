/** What one event does to the nodes: its handler protects the zone's nodes when the
    do-not-disrupt feature is on, and taints them in auto mode when it is off; the
    terminal event's handler takes that back. */
module EventNodes {
  import opened Pools
  import opened NodeStores
  import opened NodePasses

  /** The calls that fail: in the protect pass, and in each of the taint passes, of
      which there is one for every built-in pool. */
  datatype Failures = Failures(protect: set<Call>, taints: seq<set<Call>>)

  /** Taint passes over the zone's nodes; they want the zone known. */
  function TaintNodes(cfg: Config, doNotDisrupt: bool, awayFrom: string, tracked: map<string, NodeInfo>, nodes: Nodes,
                      passes: seq<set<Call>>): Nodes
  {
    var name := ZoneName(cfg, awayFrom);
    if doNotDisrupt || name == "" then nodes else TaintPasses(nodes, InZone(tracked, name), name, passes)
  }

  /** Protecting falls back to the raw zone ID. */
  function UpdateNodes(cfg: Config, doNotDisrupt: bool, awayFrom: string, tracked: map<string, NodeInfo>, nodes: Nodes,
                       failures: Failures): Nodes
  {
    if doNotDisrupt then
      AfterPass(Protect, nodes, InZone(tracked, RestoreName(cfg, awayFrom)), failures.protect)
    else if cfg.isAutoMode && UpdatedZones(cfg, awayFrom) != [] then
      TaintNodes(cfg, doNotDisrupt, awayFrom, tracked, nodes, failures.taints)
    else nodes
  }

  function RestoreNodes(cfg: Config, doNotDisrupt: bool, awayFrom: string, tracked: map<string, NodeInfo>, nodes: Nodes,
                        failing: set<Call>): Nodes
  {
    var zone := InZone(tracked, RestoreName(cfg, awayFrom));
    if doNotDisrupt then AfterPass(Unprotect, nodes, zone, failing)
    else if cfg.isAutoMode then UntaintPass(nodes, zone, failing)
    else nodes
  }

  /** The deliveries of one in-progress event, handled one after the other. */
  function UpdateNodesOften(cfg: Config, doNotDisrupt: bool, awayFrom: string, tracked: map<string, NodeInfo>,
                            nodes: Nodes, deliveries: seq<Failures>): Nodes
    decreases |deliveries|
  {
    if deliveries == [] then nodes
    else
      var next := UpdateNodes(cfg, doNotDisrupt, awayFrom, tracked, nodes, deliveries[0]);
      UpdateNodesOften(cfg, doNotDisrupt, awayFrom, tracked, next, deliveries[1..])
  }

  function ProtectFailures(deliveries: seq<Failures>): seq<set<Call>> {
    if deliveries == [] then [] else [deliveries[0].protect] + ProtectFailures(deliveries[1..])
  }

  function TaintFailures(deliveries: seq<Failures>): seq<set<Call>> {
    if deliveries == [] then [] else deliveries[0].taints + TaintFailures(deliveries[1..])
  }

  /** Deliveries add up to passes. */
  lemma {:induction false} OftenIsPasses(cfg: Config, doNotDisrupt: bool, awayFrom: string,
                                         tracked: map<string, NodeInfo>, nodes: Nodes, deliveries: seq<Failures>)
    ensures UpdateNodesOften(cfg, doNotDisrupt, awayFrom, tracked, nodes, deliveries) ==
      if doNotDisrupt then
        ProtectPasses(nodes, InZone(tracked, RestoreName(cfg, awayFrom)), ProtectFailures(deliveries))
      else if cfg.isAutoMode && ZoneName(cfg, awayFrom) != "" && UpdatedZones(cfg, awayFrom) != [] then
        TaintPasses(nodes, InZone(tracked, ZoneName(cfg, awayFrom)), ZoneName(cfg, awayFrom), TaintFailures(deliveries))
      else nodes
    decreases |deliveries|
  {
    if deliveries != [] {
      var next := UpdateNodes(cfg, doNotDisrupt, awayFrom, tracked, nodes, deliveries[0]);
      OftenIsPasses(cfg, doNotDisrupt, awayFrom, tracked, next, deliveries[1..]);
      var name := ZoneName(cfg, awayFrom);
      TaintPassesAppend(nodes, InZone(tracked, name), name, deliveries[0].taints, TaintFailures(deliveries[1..]));
      assert ([deliveries[0].protect] + ProtectFailures(deliveries[1..]))[1..] == ProtectFailures(deliveries[1..]);
    }
  }

  /** A mark on the node that the terminal event's handler removes, whoever put it there. */
  predicate Marked(cfg: Config, doNotDisrupt: bool, node: Node) {
    if doNotDisrupt then node.unschedulable || DO_NOT_DISRUPT in node.annotations
    else cfg.isAutoMode && HasShiftTaint(node)
  }

  /** Nodes over a whole shift, in every mode: after any number of in-progress events
      with any failures and a terminal one with none, a node is as it was exactly when
      it is outside the zone or bore none of the marks of that mode before. */
  lemma EventNodesRoundTripIff(cfg: Config, doNotDisrupt: bool, awayFrom: string, tracked: map<string, NodeInfo>,
                               nodes: Nodes, deliveries: seq<Failures>, n: string)
    requires n in nodes
    ensures var mid := UpdateNodesOften(cfg, doNotDisrupt, awayFrom, tracked, nodes, deliveries);
      var end := RestoreNodes(cfg, doNotDisrupt, awayFrom, tracked, mid, {});
      var zone := InZone(tracked, RestoreName(cfg, awayFrom));
      && n in mid && n in end
      && (n !in zone || n == "" ==> mid[n] == nodes[n])
      && (end[n] == nodes[n] <==> n !in zone || n == "" || !Marked(cfg, doNotDisrupt, nodes[n]))
  {
    OftenIsPasses(cfg, doNotDisrupt, awayFrom, tracked, nodes, deliveries);
    var zone := InZone(tracked, RestoreName(cfg, awayFrom));
    if doNotDisrupt {
      ProtectionRoundTripIff(nodes, zone, ProtectFailures(deliveries), n);
    } else if cfg.isAutoMode {
      TaintRoundTripIff(nodes, zone, ZoneName(cfg, awayFrom), TaintFailures(deliveries), n);
      TaintRoundTripIff(nodes, zone, ZoneName(cfg, awayFrom), [], n);
    }
  }

  // ----- what one event does to each node, entry by entry of the store -----

  /** The zone whose nodes are protected, unprotected and untainted: the cached name, or
      the raw ID where there is none; the empty one stands for all nodes. */
  predicate Concerns(cfg: Config, awayFrom: string, tracked: map<string, NodeInfo>, n: string) {
    && n != "" && n in tracked
    && if awayFrom in cfg.zoneMapping && cfg.zoneMapping[awayFrom] != ""
       then tracked[n].availabilityZone == cfg.zoneMapping[awayFrom]
       else awayFrom == "" || tracked[n].availabilityZone == awayFrom
  }

  /** An in-progress event: the exact outcome for every node, with any failures. */
  lemma UpdateNodesIs(cfg: Config, doNotDisrupt: bool, awayFrom: string, tracked: map<string, NodeInfo>, nodes: Nodes,
                      failures: Failures, n: string)
    requires n in nodes
    ensures var now := UpdateNodes(cfg, doNotDisrupt, awayFrom, tracked, nodes, failures);
      var known := awayFrom in cfg.zoneMapping && cfg.zoneMapping[awayFrom] != "";
      && n in now
      && if !Concerns(cfg, awayFrom, tracked, n) then now[n] == nodes[n]
         else if doNotDisrupt then
           && now[n].taints == nodes[n].taints
           && (now[n].unschedulable <==> nodes[n].unschedulable || AllGoThrough(n, failures.protect))
           && now[n].annotations ==
              (if !FirstGoesThrough(n, failures.protect) then nodes[n].annotations
               else nodes[n].annotations["karpenter.sh/do-not-disrupt" := "true"])
         else if cfg.isAutoMode && known && cfg.clusterZones != [] && !ShiftTainted(nodes[n])
                 && (exists i :: 0 <= i < |failures.taints| && FirstGoesThrough(n, failures.taints[i])) then
           now[n] == nodes[n].(taints := nodes[n].taints
                     + [Taint("zonal-autoshift.eks.amazonaws.com/away-zone", cfg.zoneMapping[awayFrom], "NoExecute")])
         else now[n] == nodes[n]
  {
    var name := ZoneName(cfg, awayFrom);
    UpdatedZonesKeepAwayIff(cfg, awayFrom);
    if n in InZone(tracked, RestoreName(cfg, awayFrom)) && n != "" {
      ProtectNodeIs(n, nodes[n], failures.protect);
    }
    TaintPassesOnlyTaint(nodes, InZone(tracked, name), name, failures.taints);
    if n in InZone(tracked, name) && n != "" {
      TaintPassesMark(nodes, InZone(tracked, name), name, failures.taints, n);
    }
  }

  /** A terminal event: likewise. */
  lemma RestoreNodesIs(cfg: Config, doNotDisrupt: bool, awayFrom: string, tracked: map<string, NodeInfo>, nodes: Nodes,
                       failing: set<Call>, n: string)
    requires n in nodes
    ensures var now := RestoreNodes(cfg, doNotDisrupt, awayFrom, tracked, nodes, failing);
      var annotated := "karpenter.sh/do-not-disrupt" in nodes[n].annotations;
      var first := Get(n, First) !in failing && (annotated ==> Put(n, First) !in failing);
      && n in now
      && if !Concerns(cfg, awayFrom, tracked, n) then now[n] == nodes[n]
         else if doNotDisrupt then
           && now[n].taints == nodes[n].taints
           && now[n].annotations ==
              (if first then nodes[n].annotations - {"karpenter.sh/do-not-disrupt"} else nodes[n].annotations)
           && (now[n].unschedulable <==>
                 nodes[n].unschedulable && !(first && Get(n, Second) !in failing && Put(n, Second) !in failing))
         else if cfg.isAutoMode then
           && now[n] == nodes[n].(taints := now[n].taints)
           && (ShiftTainted(now[n]) <==> ShiftTainted(nodes[n]) && !FirstGoesThrough(n, failing))
           && (!ShiftTainted(nodes[n]) || !FirstGoesThrough(n, failing) ==> now[n] == nodes[n])
         else now[n] == nodes[n]
  {
    var zone := InZone(tracked, RestoreName(cfg, awayFrom));
    if n in zone && n != "" {
      UnprotectNodeIs(n, nodes[n], failing);
      UntaintNodeIs(nodes, zone, failing, n);
    }
  }

  /** No number of events about a known zone, with any failures, changes a node that the
      store has under another zone, or not at all. */
  lemma {:induction false} EventsSpareOtherZones(cfg: Config, doNotDisrupt: bool, awayFrom: string,
                                                 tracked: map<string, NodeInfo>, nodes: Nodes,
                                                 deliveries: seq<Failures>, failing: set<Call>, n: string)
    requires awayFrom in cfg.zoneMapping && cfg.zoneMapping[awayFrom] != ""
    requires n in nodes && (n !in tracked || tracked[n].availabilityZone != cfg.zoneMapping[awayFrom])
    ensures var mid := UpdateNodesOften(cfg, doNotDisrupt, awayFrom, tracked, nodes, deliveries);
      var end := RestoreNodes(cfg, doNotDisrupt, awayFrom, tracked, mid, failing);
      n in mid && mid[n] == nodes[n] && n in end && end[n] == nodes[n]
    decreases |deliveries|
  {
    if deliveries == [] {
      RestoreNodesIs(cfg, doNotDisrupt, awayFrom, tracked, nodes, failing, n);
    } else {
      var next := UpdateNodes(cfg, doNotDisrupt, awayFrom, tracked, nodes, deliveries[0]);
      UpdateNodesIs(cfg, doNotDisrupt, awayFrom, tracked, nodes, deliveries[0], n);
      EventsSpareOtherZones(cfg, doNotDisrupt, awayFrom, tracked, next, deliveries[1..], failing, n);
    }
  }
}
