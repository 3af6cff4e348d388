/** The event handlers as they run when nothing interferes: the loops over pools,
    requirements and zones, writing to the cluster patch by patch, and the node passes
    they start.  Each is proved against the function the theorems are stated with. */
module PoolClient {
  import opened Sequences
  import opened Pools
  import opened PoolHandlers
  import opened AutoMode
  import opened EventNodes
  import opened NodeControllers
  import NodePasses
  import NodeStores
  import Schedules

  /** The zones left when the away zone is filtered out of the cached cluster zones. */
  method GetUpdatedZones(cfg: Config, awayFrom: string) returns (zones: seq<string>)
    ensures zones == UpdatedZones(cfg, awayFrom)
  {
    var awayZoneName := ZoneName(cfg, awayFrom);
    if awayZoneName == "" {
      return cfg.clusterZones;
    }
    zones := FilterZones(cfg.clusterZones, awayZoneName);
    if |zones| == 0 {
      return cfg.clusterZones;
    }
  }

  method FilterZones(values: seq<string>, awayZoneName: string) returns (filtered: seq<string>)
    ensures filtered == Without(values, awayZoneName)
    ensures forall z: string :: multiset(filtered)[z] == if z == awayZoneName then 0 else multiset(values)[z]
  {
    WithoutIs(values, awayZoneName);
    filtered := [];
    for k := 0 to |values|
      invariant filtered == Without(values[..k], awayZoneName)
    {
      WithoutAppend(values[..k], values[k], awayZoneName);
      assert values[..k] + [values[k]] == values[..k + 1];
      if values[k] != awayZoneName {
        filtered := filtered + [values[k]];
      }
    }
    assert values[..|values|] == values;
  }

  /** What a standard-mode update makes of the pools already dealt with. */
  function UpdatedUpTo(cfg: Config, awayFrom: string, cluster: Cluster, refused: set<Call>,
                       done: set<string>): Cluster {
    map n | n in cluster ::
      if n !in done then cluster[n]
      else UpdateOne(cfg, awayFrom, cluster[n], SpecOf(n) !in refused, AnnotationOf(n) !in refused)
  }

  function RestoredUpTo(cfg: Config, awayFrom: string, cluster: Cluster, refused: set<Call>,
                        done: set<string>): Cluster {
    map n | n in cluster ::
      if n !in done then cluster[n]
      else RestoreOne(cfg, awayFrom, cluster[n], SpecOf(n) !in refused, AnnotationOf(n) !in refused)
  }

  function AutoUpdatedUpTo(cfg: Config, awayFrom: string, cluster: Cluster, refused: set<Call>,
                           done: set<string>): Cluster {
    map n | n in cluster.Keys + (set m | m in Created(cluster, refused) && OriginalName(m) in done) ::
      if n !in cluster then Copy(cfg, awayFrom, OriginalName(n), cluster[OriginalName(n)])
      else if BuiltIn(n) || n !in done then cluster[n]
      else UpdateOne(cfg, awayFrom, cluster[n], SpecOf(n) !in refused, AnnotationOf(n) !in refused)
  }

  function AutoRestoredUpTo(cfg: Config, awayFrom: string, cluster: Cluster, refused: set<Call>,
                            done: set<string>): Cluster {
    map n | n in cluster && (IsCopyName(n) && n in done ==> DeleteOf(n) in refused) ::
      if IsCopyName(n) || n !in done then cluster[n]
      else RestoreOne(cfg, awayFrom, cluster[n], SpecOf(n) !in refused, AnnotationOf(n) !in refused)
  }

  // Dealing with one more pool.

  lemma UpdatedOneMore(cfg: Config, awayFrom: string, c: Cluster, refused: set<Call>, done: set<string>, n: string)
    requires n in c
    ensures UpdatedUpTo(cfg, awayFrom, c, refused, done + {n}) ==
            UpdatedUpTo(cfg, awayFrom, c, refused,
                        done)[n := UpdateOne(cfg, awayFrom, c[n], SpecOf(n) !in refused, AnnotationOf(n) !in refused)]
    ensures UpdatedZones(cfg, awayFrom) == [] ==> UpdatedUpTo(cfg, awayFrom, c, refused, done) == c
    ensures n !in done ==> UpdatedUpTo(cfg, awayFrom, c, refused, done)[n] == c[n]
  {
  }

  lemma RestoredOneMore(cfg: Config, awayFrom: string, c: Cluster, refused: set<Call>, done: set<string>, n: string)
    requires n in c
    ensures RestoredUpTo(cfg, awayFrom, c, refused, done + {n}) ==
            RestoredUpTo(cfg, awayFrom, c, refused,
                         done)[n := RestoreOne(cfg, awayFrom, c[n], SpecOf(n) !in refused, AnnotationOf(n) !in refused)]
    ensures n !in done ==> RestoredUpTo(cfg, awayFrom, c, refused, done)[n] == c[n]
  {
  }

  lemma AutoUpdatedOneMore(cfg: Config, awayFrom: string, c: Cluster, refused: set<Call>, done: set<string>, n: string)
    requires n in c && n !in done && !BuiltIn(n)
    ensures var now := AutoUpdatedUpTo(cfg, awayFrom, c, refused, done);
      && n in now && now[n] == c[n]
      && AutoUpdatedUpTo(cfg, awayFrom, c, refused, done + {n}) ==
         now[n := UpdateOne(cfg, awayFrom, c[n], SpecOf(n) !in refused, AnnotationOf(n) !in refused)]
  {
    NoCopyDue(c, refused, done, n);
  }

  /** No copy becomes due when an ordinary pool is dealt with. */
  lemma NoCopyDue(c: Cluster, refused: set<Call>, done: set<string>, n: string)
    requires !BuiltIn(n)
    ensures (set m | m in Created(c, refused) && OriginalName(m) in done + {n}) ==
            (set m | m in Created(c, refused) && OriginalName(m) in done)
  {
    CopyNames();
  }

  /** Which copies become due when `n` is dealt with: its own. */
  lemma CopiesDue(c: Cluster, refused: set<Call>, done: set<string>, n: string)
    requires n in c && n !in done && BuiltIn(n)
    ensures CopyName(n) in Created(c, refused) <==> CopyName(n) !in c && CreateOf(CopyName(n)) !in refused
    ensures OriginalName(CopyName(n)) == n
    ensures (set m | m in Created(c, refused) && OriginalName(m) in done + {n}) ==
            (set m | m in Created(c, refused) && OriginalName(m) in done) + (if CopyName(n) in Created(c, refused)
              then {CopyName(n)} else {})
    ensures CopyName(n) !in set m | m in Created(c, refused) && OriginalName(m) in done
  {
    CopyNames();
  }

  lemma AutoCreatedOneMore(cfg: Config, awayFrom: string, c: Cluster, refused: set<Call>, done: set<string>, n: string)
    requires n in c && n !in done && BuiltIn(n)
    ensures var now := AutoUpdatedUpTo(cfg, awayFrom, c, refused, done);
      && n in now && now[n] == c[n] && (CopyName(n) in now <==> CopyName(n) in c)
      && AutoUpdatedUpTo(cfg, awayFrom, c, refused, done + {n}) ==
         if CopyName(n) in c || CreateOf(CopyName(n)) in refused then now
           else now[CopyName(n) := Copy(cfg, awayFrom, n, c[n])]
  {
    CopiesDue(c, refused, done, n);
  }

  lemma AutoRestoredOneMore(cfg: Config, awayFrom: string, c: Cluster, refused: set<Call>, done: set<string>, n: string)
    requires n in c && n !in done
    ensures var now, next := AutoRestoredUpTo(cfg, awayFrom, c, refused, done),
      AutoRestoredUpTo(cfg, awayFrom, c, refused, done + {n});
      && n in now && now[n] == c[n]
      && next ==
        if !IsCopyName(n) then now[n := RestoreOne(cfg, awayFrom, c[n], SpecOf(n) !in refused,
                                                   AnnotationOf(n) !in refused)]
        else if DeleteOf(n) in refused then now
        else now - {n}
  {
  }

  lemma NoneDone(cfg: Config, awayFrom: string, c: Cluster, refused: set<Call>)
    ensures UpdatedUpTo(cfg, awayFrom, c, refused, {}) == c
    ensures RestoredUpTo(cfg, awayFrom, c, refused, {}) == c
    ensures AutoUpdatedUpTo(cfg, awayFrom, c, refused, {}) == c
    ensures AutoRestoredUpTo(cfg, awayFrom, c, refused, {}) == c
  {
  }

  lemma AllUpdated(cfg: Config, awayFrom: string, c: Cluster, refused: set<Call>)
    requires UpdatedZones(cfg, awayFrom) != []
    ensures AutoUpdatedUpTo(cfg, awayFrom, c, refused, c.Keys) == AutoUpdate(cfg, awayFrom, c, refused)
  {
    CopyNames();
    assert AutoUpdatedUpTo(cfg, awayFrom, c, refused, c.Keys).Keys == AutoUpdate(cfg, awayFrom, c, refused).Keys;
  }

  lemma AllRestored(cfg: Config, awayFrom: string, c: Cluster, refused: set<Call>)
    ensures AutoRestoredUpTo(cfg, awayFrom, c, refused, c.Keys) == AutoRestore(cfg, awayFrom, c, refused)
  {
  }

  /** What refused calls leave undone, in the loops of either handler and mode. */
  lemma RefusedCallsAre(cfg: Config, awayFrom: string, c: Cluster, refused: set<Call>, n: string)
    requires n in c
    ensures var updated := UpdatedUpTo(cfg, awayFrom, c, refused, c.Keys);
      var restored := RestoredUpTo(cfg, awayFrom, c, refused, c.Keys);
      && n in updated && CallsObeyed(c[n], updated[n], Updated(cfg, awayFrom, c[n]), refused, n)
      && n in restored && CallsObeyed(c[n], restored[n], Restored(cfg, awayFrom, c[n]), refused, n)
    ensures Plain(cfg, n) && cfg.isAutoMode ==>
      var updated, restored := AutoUpdate(cfg, awayFrom, c, refused), AutoRestore(cfg, awayFrom, c, refused);
      && n in updated && CallsObeyed(c[n], updated[n], Updated(cfg, awayFrom, c[n]), refused, n)
      && n in restored && CallsObeyed(c[n], restored[n], Restored(cfg, awayFrom, c[n]), refused, n)
    ensures n == "general-purpose-kss" || n == "system-kss" ==>
      (n in AutoRestore(cfg, awayFrom, c, refused) <==> DeleteOf(n) in refused)
  {
    NoZonesNoUpdate(cfg, awayFrom);
  }

  /** `now` has of `target` what was not refused, and the rest from `before`. */
  predicate CallsObeyed(before: Pool, now: Pool, target: Pool, refused: set<Call>, n: string) {
    && now.requirements == (if SpecOf(n) in refused then before else target).requirements
    && now.disruption == (if SpecOf(n) in refused then before else target).disruption
    && now.away == (if AnnotationOf(n) in refused then before else target).away
    && now == before.(requirements := now.requirements, disruption := now.disruption, away := now.away)
  }

  /** The failing calls of the taint passes, one pass for every built-in pool listed. */
  function TaintsOf(items: seq<Item>, failing: map<string, set<NodePasses.Call>>): seq<set<NodePasses.Call>> {
    if items == [] then []
    else TaintsOf(items[..|items| - 1], failing) + TaintsOfOne(items[|items| - 1].name, failing)
  }

  function TaintsOfOne(name: string, failing: map<string, set<NodePasses.Call>>): seq<set<NodePasses.Call>> {
    if !BuiltIn(name) then [] else if name in failing then [failing[name]] else [{}]
  }

  /** What may go wrong while one event is handled: the list call, calls on pools, and
      calls on nodes in the protect or unprotect pass and in the taint passes. */
  datatype Trouble = Trouble(
    listRefused: bool,
    refused: set<Call>,
    failing: set<NodePasses.Call>,
    taintsFailing: map<string, set<NodePasses.Call>>)

  /** The pools a handler gets to see: none if the list call fails. */
  ghost predicate Listed(pools: Cluster, trouble: Trouble, items: seq<Item>) {
    if trouble.listRefused then items == [] else Listing(pools, items)
  }

  /** The nodes after an event's updates, with the pools listed in the order of `items`. */
  function NodesUpdated(cfg: Config, doNotDisrupt: bool, awayFrom: string, tracked: map<string, NodeStores.NodeInfo>,
                        nodes: NodePasses.Nodes, items: seq<Item>, trouble: Trouble): NodePasses.Nodes
  {
    UpdateNodes(cfg, doNotDisrupt, awayFrom, tracked, nodes,
                Failures(trouble.failing, TaintsOf(items, trouble.taintsFailing)))
  }

  /** An unprotect pass comes before the list call, an untaint pass after it. */
  function NodesRestored(cfg: Config, doNotDisrupt: bool, awayFrom: string, tracked: map<string, NodeStores.NodeInfo>,
                         nodes: NodePasses.Nodes, trouble: Trouble): NodePasses.Nodes
  {
    if trouble.listRefused && !doNotDisrupt then nodes
    else RestoreNodes(cfg, doNotDisrupt, awayFrom, tracked, nodes, trouble.failing)
  }

  // ----- the nodes after an event, node by node -----

  predicate Untroubled(trouble: Trouble) {
    !trouble.listRefused && trouble.failing == {} && trouble.taintsFailing == map[]
  }

  /** Every built-in pool listed is a taint pass. */
  lemma {:induction false} TaintsOfIs(items: seq<Item>, name: string)
    requires name == "general-purpose" || name == "system"
    ensures forall i :: 0 <= i < |TaintsOf(items, map[])| ==> TaintsOf(items, map[])[i] == {}
    ensures name in Names(items) ==> TaintsOf(items, map[]) != []
    decreases |items|
  {
    if items != [] {
      var k := |items| - 1;
      TaintsOfIs(items[..k], name);
      assert forall i :: 0 <= i < k ==> items[..k][i] == items[i];
      if name in Names(items) && items[k].name != name {
        var i :| 0 <= i < |items| && items[i].name == name;
        assert items[..k][i].name == name;
      }
    }
  }

  /** What an update leaves of a node: nothing is changed outside the zone, and with no
      trouble every node of the zone is protected, or tainted if there was a built-in pool. */
  ghost predicate NodeUpdated(cfg: Config, doNotDisrupt: bool, awayFrom: string,
                              tracked: map<string, NodeStores.NodeInfo>, listed: Cluster, trouble: Trouble, n: string,
                              before: NodePasses.Node, now: NodePasses.Node)
  {
    && (!Concerns(cfg, awayFrom, tracked, n) ==> now == before)
    && (Concerns(cfg, awayFrom, tracked, n) && Untroubled(trouble) && doNotDisrupt ==>
          now == before.(annotations := before.annotations["karpenter.sh/do-not-disrupt" := "true"],
                         unschedulable := true))
    && (&& Concerns(cfg, awayFrom, tracked, n) && Untroubled(trouble) && !doNotDisrupt && cfg.isAutoMode
        && cfg.clusterZones != [] && awayFrom in cfg.zoneMapping && cfg.zoneMapping[awayFrom] != ""
        && ("general-purpose" in listed || "system" in listed) ==>
          now == if NodePasses.ShiftTainted(before) then before
                 else before.(taints := before.taints + [
                        Taint("zonal-autoshift.eks.amazonaws.com/away-zone", cfg.zoneMapping[awayFrom], "NoExecute")]))
    && (!doNotDisrupt && !cfg.isAutoMode ==> now == before)
  }

  lemma NodesUpdatedAre(cfg: Config, doNotDisrupt: bool, awayFrom: string, tracked: map<string, NodeStores.NodeInfo>,
                        nodes: NodePasses.Nodes, listed: Cluster, items: seq<Item>, trouble: Trouble, n: string)
    requires Listed(listed, trouble, items) && n in nodes
    ensures var now := NodesUpdated(cfg, doNotDisrupt, awayFrom, tracked, nodes, items, trouble);
      n in now && NodeUpdated(cfg, doNotDisrupt, awayFrom, tracked, listed, trouble, n, nodes[n], now[n])
  {
    var passes := TaintsOf(items, trouble.taintsFailing);
    UpdateNodesIs(cfg, doNotDisrupt, awayFrom, tracked, nodes, Failures(trouble.failing, passes), n);
    if Untroubled(trouble) {
      TaintsOfIs(items, "general-purpose");
      TaintsOfIs(items, "system");
      assert passes != [] ==> NodePasses.FirstGoesThrough(n, passes[0]);
    }
  }

  /** What a restore leaves of a node: with no trouble a node of the zone has lost the
      annotation and the cordon, or the taint, of the mode. */
  ghost predicate NodeRestored(cfg: Config, doNotDisrupt: bool, awayFrom: string,
                               tracked: map<string, NodeStores.NodeInfo>, trouble: Trouble, n: string,
                               before: NodePasses.Node, now: NodePasses.Node)
  {
    && (!Concerns(cfg, awayFrom, tracked, n) ==> now == before)
    && (Concerns(cfg, awayFrom, tracked, n) && Untroubled(trouble) && doNotDisrupt ==>
          now == before.(annotations := before.annotations - {"karpenter.sh/do-not-disrupt"}, unschedulable := false))
    && (Concerns(cfg, awayFrom, tracked, n) && Untroubled(trouble) && !doNotDisrupt && cfg.isAutoMode ==>
          now == before.(taints := now.taints) && !NodePasses.ShiftTainted(now))
    && (!doNotDisrupt && !cfg.isAutoMode ==> now == before)
  }

  lemma NodesRestoredAre(cfg: Config, doNotDisrupt: bool, awayFrom: string, tracked: map<string, NodeStores.NodeInfo>,
                         nodes: NodePasses.Nodes, trouble: Trouble, n: string)
    requires n in nodes
    ensures var now := NodesRestored(cfg, doNotDisrupt, awayFrom, tracked, nodes, trouble);
      n in now && NodeRestored(cfg, doNotDisrupt, awayFrom, tracked, trouble, n, nodes[n], now[n])
  {
    RestoreNodesIs(cfg, doNotDisrupt, awayFrom, tracked, nodes, trouble.failing, n);
  }

  class EventHandler {
    const nodeController: NodeClaimController?            // null until it is set up
    const doNotDisrupt: bool
    var pools: map<string, Pool>

    constructor (nodeController: NodeClaimController?, doNotDisrupt: bool, pools: map<string, Pool>)
      ensures this.nodeController == nodeController && this.doNotDisrupt == doNotDisrupt && this.pools == pools
    {
      this.nodeController := nodeController;
      this.doNotDisrupt := doNotDisrupt;
      this.pools := pools;
    }

    // The nodes within reach: none without a node controller.

    function ReachedNodes(): NodePasses.Nodes
      reads nodeController
    {
      if nodeController == null then map[] else nodeController.cluster
    }

    function Stores(): set<object> {
      if nodeController == null then {} else {nodeController.nodeStore}
    }

    function TrackedNodes(): map<string, NodeStores.NodeInfo>
      reads Stores()
    {
      if nodeController == null then map[] else nodeController.nodeStore.nodes
    }

    ghost predicate Ready()
      reads Stores()
    {
      nodeController == null || nodeController.nodeStore.Valid()
    }

    /** The nodes are as one event's updates leave them, for some order of the pools listed. */
    ghost predicate NodesAsUpdated(cfg: Config, awayFrom: string, listed: Cluster, before: NodePasses.Nodes,
                                   trouble: Trouble)
      reads nodeController, Stores()
    {
      var tracked := TrackedNodes();
      exists items :: Listed(listed, trouble, items) &&
        ReachedNodes() == NodesUpdated(cfg, doNotDisrupt, awayFrom, tracked, before, items, trouble)
    }

    ghost predicate NodesAsRestored(cfg: Config, awayFrom: string, before: NodePasses.Nodes, trouble: Trouble)
      reads nodeController, Stores()
    {
      var tracked := TrackedNodes();
      ReachedNodes() == NodesRestored(cfg, doNotDisrupt, awayFrom, tracked, before, trouble)
    }

    /** The nodes of the away zone after taint passes, of which there are none without a
        known zone or with the do-not-disrupt feature on. */
    function Tainted(cfg: Config, awayFrom: string, before: NodePasses.Nodes, passes: seq<set<NodePasses.Call>>)
      : NodePasses.Nodes
      reads Stores()
    {
      TaintNodes(cfg, doNotDisrupt, awayFrom, TrackedNodes(), before, passes)
    }

    /** The taint passes due after one more pool, on top of the earlier ones. */
    lemma MoreTaints(cfg: Config, awayFrom: string, before: NodePasses.Nodes, items: seq<Item>, k: nat,
                     failing: map<string, set<NodePasses.Call>>)
      requires k < |items|
      ensures Tainted(cfg, awayFrom, before, TaintsOf(items[..k + 1], failing)) ==
              Tainted(cfg, awayFrom, Tainted(cfg, awayFrom, before, TaintsOf(items[..k], failing)),
                      TaintsOfOne(items[k].name, failing))
    {
      var name := ZoneName(cfg, awayFrom);
      var zone := NodeStores.InZone(TrackedNodes(), name);
      assert items[..k + 1][..k] == items[..k];
      NodePasses.TaintPassesAppend(before, zone, name, TaintsOf(items[..k], failing),
                                   TaintsOfOne(items[k].name, failing));
    }

    /** The list call: every pool once, in no particular order. */
    method List() returns (items: seq<Item>)
      ensures Listing(pools, items)
    {
      items := [];
      var rest := pools.Keys;
      while rest != {}
        invariant rest <= pools.Keys && Names(items) == pools.Keys - rest
        invariant forall i :: 0 <= i < |items| ==> items[i].name in pools && pools[items[i].name] == items[i].pool
        invariant forall i, j :: 0 <= i < j < |items| ==> items[i].name != items[j].name
        decreases rest
      {
        var n :| n in rest;
        assert forall i :: 0 <= i < |items| ==> items[i].name in Names(items);
        ghost var before := items;
        items := items + [Item(n, pools[n])];
        rest := rest - {n};
        NamesAppend(items, |before|);
        assert items[..|before|] == before && items[..|before| + 1] == items;
      }
    }

    method PatchSpec(name: string, patch: Patch, refused: set<Call>)
      modifies this
      ensures pools == PoolHandlers.PatchSpec(old(pools), name, patch, SpecOf(name) !in refused)
    {
      if SpecOf(name) !in refused && name in pools {
        var pool := pools[name].(requirements := patch.requirements);
        if patch.disruption.Some? {
          pool := pool.(disruption := patch.disruption.value);
        }
        pools := pools[name := pool];
      }
    }

    method PatchAnnotation(name: string, away: Option<string>, refused: set<Call>)
      modifies this
      ensures pools == PoolHandlers.PatchAnnotation(old(pools), name, away, AnnotationOf(name) !in refused)
    {
      if AnnotationOf(name) !in refused && name in pools {
        pools := pools[name := pools[name].(away := away)];
      }
    }

    /** The loop over one pool's requirements that an update makes, in either mode. */
    method UpdateInPlace(cfg: Config, awayFrom: string, updatedZones: seq<string>, seen: Item, refused: set<Call>)
      requires updatedZones == UpdatedZones(cfg, awayFrom) && updatedZones != []
      requires seen.name in pools && pools[seen.name] == seen.pool
      modifies this
      ensures pools == old(pools)[seen.name := UpdateOne(cfg, awayFrom, seen.pool, SpecOf(seen.name) !in refused,
                                                         AnnotationOf(seen.name) !in refused)]
    {
      var requirements := seen.pool.requirements;
      var zoneRequirementExists := false;
      var i := 0;
      while i < |requirements|
        invariant 0 <= i <= |requirements| && requirements == seen.pool.requirements
        invariant !zoneRequirementExists && pools == old(pools)
        invariant forall j :: 0 <= j < i ==> requirements[j].key != ZONE_KEY
      {
        if requirements[i].key == ZONE_KEY {
          zoneRequirementExists := true;
          FirstZoneIs(requirements, i);
          var values := requirements[i].values;
          var filteredZones := FilterZones(values, ZoneName(cfg, awayFrom));
          if |filteredZones| != |values| {
            requirements := requirements[i := requirements[i].(values := filteredZones)];
            PatchSpec(seen.name, Patch(requirements, Some(Trimmed(seen.pool.disruption))), refused);
            PatchAnnotation(seen.name, Some(awayFrom), refused);
          }
          break;
        }
        i := i + 1;
      }
      if !zoneRequirementExists {
        FirstZoneIs(requirements, |requirements|);
        requirements := requirements + [Requirement(ZONE_KEY, In, updatedZones)];
        PatchSpec(seen.name, Patch(requirements, Some(Trimmed(seen.pool.disruption))), refused);
        PatchAnnotation(seen.name, Some(awayFrom), refused);
      }
    }

    /** The loop over one pool's requirements that a restore makes, in either mode. */
    method RestoreInPlace(cfg: Config, awayFrom: string, seen: Item, refused: set<Call>)
      requires seen.name in pools && pools[seen.name] == seen.pool
      modifies this
      ensures pools == old(pools)[seen.name := RestoreOne(cfg, awayFrom, seen.pool, SpecOf(seen.name) !in refused,
                                                          AnnotationOf(seen.name) !in refused)]
    {
      if seen.pool.away.Some? {
        var requirements := seen.pool.requirements;
        var i := 0;
        while i < |requirements|
          invariant 0 <= i <= |requirements| && requirements == seen.pool.requirements
          invariant pools == old(pools)
          invariant forall j :: 0 <= j < i ==> requirements[j].key != ZONE_KEY
        {
          if requirements[i].key == ZONE_KEY {
            FirstZoneIs(requirements, i);
            var restoredZones := requirements[i].values + [RestoreName(cfg, awayFrom)];
            requirements := requirements[i := requirements[i].(values := restoredZones)];
            PatchSpec(seen.name, Patch(requirements, None), refused);
            PatchAnnotation(seen.name, None, refused);
            return;
          }
          i := i + 1;
        }
        FirstZoneIs(requirements, |requirements|);
      }
    }

    method CreateCopy(cfg: Config, awayFrom: string, updatedZones: seq<string>, seen: Item, refused: set<Call>)
      requires BuiltIn(seen.name) && updatedZones == UpdatedZones(cfg, awayFrom)
      modifies this
      ensures var copy := CopyName(seen.name);
        pools ==
          if copy in old(pools) || CreateOf(copy) in refused then old(pools)
          else old(pools)[copy := Copy(cfg, awayFrom, seen.name, seen.pool)]
      ensures var copy := seen.name + "-kss";
        if copy in old(pools) || CreateOf(copy) in refused then pools == old(pools)
        else
          && pools.Keys == old(pools).Keys + {copy} && (forall n :: n in old(pools) ==> pools[n] == old(pools)[n])
          && CopyOf(awayFrom, seen.name, seen.pool, pools[copy])
          && pools[copy].requirements[..|seen.pool.requirements|] == seen.pool.requirements
          && pools[copy].requirements[|seen.pool.requirements|].values == updatedZones
    {
      FreshCopyIsCopyOf(cfg, awayFrom, seen.name, seen.pool);
      var requirements := [];
      for i := 0 to |seen.pool.requirements|
        invariant requirements == seen.pool.requirements[..i] && pools == old(pools)
      {
        requirements := requirements + [seen.pool.requirements[i]];
      }
      assert requirements == seen.pool.requirements;
      requirements := requirements + [Requirement(ZONE_KEY, In, updatedZones)];
      var settings := Disruption([], BareText(seen.pool.disruption.consolidateAfter),
                                 BareText(seen.pool.disruption.consolidationPolicy));
      if |seen.pool.disruption.budgets| > 0 {
        settings := settings.(budgets := [BareBudget(seen.pool.disruption.budgets[0])]);
      }
      var copy := Pool(requirements, settings, Some(awayFrom), Some(50), [], seen.pool.nodeClass);
      if seen.name == "system" && |seen.pool.taints| > 0 {
        copy := copy.(taints := seen.pool.taints);
      }
      if CopyName(seen.name) !in pools && CreateOf(CopyName(seen.name)) !in refused {
        pools := pools[CopyName(seen.name) := copy];
      }
    }

    /** The handler of an in-progress event, start to end. */
    method UpdateKarpenterNodePool(cfg: Config, event: Event, trouble: Trouble, pick: Schedules.Scheduler)
      requires Ready() && Schedules.Picks(pick)
      modifies this, nodeController
      ensures trouble.listRefused ==> pools == old(pools)
      ensures !trouble.listRefused && cfg.isAutoMode ==>
        pools == AutoUpdate(cfg, AwayOf(event), old(pools), trouble.refused)
      ensures !trouble.listRefused && !cfg.isAutoMode ==>
        pools == UpdatedUpTo(cfg, AwayOf(event), old(pools), trouble.refused, old(pools).Keys)
      ensures NodesAsUpdated(cfg, AwayOf(event), old(pools), old(ReachedNodes()), trouble)
    {
      NothingReached(cfg, doNotDisrupt, AwayOf(event));
      if doNotDisrupt {
        var awayZoneName := ZoneName(cfg, AwayOf(event));
        if awayZoneName == "" {
          awayZoneName := AwayOf(event);
        }
        if nodeController != null {
          var _ := nodeController.AnnotateAndCordonNodes(awayZoneName, trouble.failing, pick);
        }
      }
      if trouble.listRefused {
        assert Listed(pools, trouble, []);
        return;
      }
      var items := List();
      assert Listed(pools, trouble, items);
      if cfg.isAutoMode {
        AutoUpdatePools(cfg, AwayOf(event), items, trouble);
      } else {
        UpdatePools(cfg, AwayOf(event), items, trouble.refused);
      }
    }

    method UpdatePools(cfg: Config, awayFrom: string, items: seq<Item>, refused: set<Call>)
      requires Listing(pools, items)
      modifies this
      ensures pools == UpdatedUpTo(cfg, awayFrom, old(pools), refused, old(pools).Keys)
      ensures UpdatedZones(cfg, awayFrom) == [] ==> pools == old(pools)
    {
      NoneDone(cfg, awayFrom, pools, refused);
      for k := 0 to |items|
        invariant pools == UpdatedUpTo(cfg, awayFrom, old(pools), refused, Names(items[..k]))
      {
        NextItem(old(pools), items, k);
        UpdatedOneMore(cfg, awayFrom, old(pools), refused, Names(items[..k]), items[k].name);
        var updatedZones := GetUpdatedZones(cfg, awayFrom);
        if |updatedZones| == 0 {
          continue;
        }
        UpdateInPlace(cfg, awayFrom, updatedZones, items[k], refused);
      }
      assert items[..|items|] == items;
    }

    method AutoUpdatePools(cfg: Config, awayFrom: string, items: seq<Item>, trouble: Trouble)
      requires Listing(pools, items) && Ready()
      modifies this, nodeController
      ensures pools == AutoUpdate(cfg, awayFrom, old(pools), trouble.refused)
      ensures ReachedNodes() ==
        if UpdatedZones(cfg, awayFrom) == [] then old(ReachedNodes())
        else Tainted(cfg, awayFrom, old(ReachedNodes()), TaintsOf(items, trouble.taintsFailing))
    {
      var updatedZones := GetUpdatedZones(cfg, awayFrom);
      if |updatedZones| == 0 {
        return;
      }
      ghost var listed, nodes := pools, ReachedNodes();
      NoneDone(cfg, awayFrom, listed, trouble.refused);
      AutoUpdateAll(cfg, awayFrom, updatedZones, items, trouble, listed, nodes);
      assert items[..|items|] == items;
      AllUpdated(cfg, awayFrom, listed, trouble.refused);
    }

    method AutoUpdateAll(cfg: Config, awayFrom: string, updatedZones: seq<string>, items: seq<Item>, trouble: Trouble,
                         ghost listed: Cluster, ghost nodes: NodePasses.Nodes)
      requires Ready() && updatedZones == UpdatedZones(cfg, awayFrom) && updatedZones != []
      requires Listing(listed, items) && AutoUpdatedTo(cfg, awayFrom, listed, nodes, items, 0, trouble)
      modifies this, nodeController
      ensures AutoUpdatedTo(cfg, awayFrom, listed, nodes, items, |items|, trouble)
    {
      for k := 0 to |items|
        invariant AutoUpdatedTo(cfg, awayFrom, listed, nodes, items, k, trouble)
      {
        AutoUpdateNext(cfg, awayFrom, updatedZones, items, k, trouble, listed, nodes);
      }
    }

    /** The auto-mode loop has dealt with the first `k` pools. */
    ghost predicate AutoUpdatedTo(cfg: Config, awayFrom: string, listed: Cluster, nodes: NodePasses.Nodes,
                                  items: seq<Item>, k: nat, trouble: Trouble)
      requires k <= |items|
      reads this, nodeController, Stores()
    {
      && pools == AutoUpdatedUpTo(cfg, awayFrom, listed, trouble.refused, Names(items[..k]))
      && ReachedNodes() == Tainted(cfg, awayFrom, nodes, TaintsOf(items[..k], trouble.taintsFailing))
    }

    method AutoUpdateNext(cfg: Config, awayFrom: string, updatedZones: seq<string>, items: seq<Item>, k: nat,
                          trouble: Trouble, ghost listed: Cluster, ghost nodes: NodePasses.Nodes)
      requires Ready() && updatedZones == UpdatedZones(cfg, awayFrom) && updatedZones != []
      requires Listing(listed, items) && k < |items|
      requires AutoUpdatedTo(cfg, awayFrom, listed, nodes, items, k, trouble)
      modifies this, nodeController
      ensures AutoUpdatedTo(cfg, awayFrom, listed, nodes, items, k + 1, trouble)
    {
      NextItem(listed, items, k);
      MoreTaints(cfg, awayFrom, nodes, items, k, trouble.taintsFailing);
      AutoUpdatePool(cfg, awayFrom, updatedZones, items[k], trouble, listed, Names(items[..k]));
    }

    /** One turn of the auto-mode loop: a copy and a taint pass, or an update in place. */
    method AutoUpdatePool(cfg: Config, awayFrom: string, updatedZones: seq<string>, seen: Item, trouble: Trouble,
                          ghost listed: Cluster, ghost done: set<string>)
      requires Ready() && updatedZones == UpdatedZones(cfg, awayFrom) && updatedZones != []
      requires seen.name in listed && listed[seen.name] == seen.pool && seen.name !in done
      requires pools == AutoUpdatedUpTo(cfg, awayFrom, listed, trouble.refused, done)
      modifies this, nodeController
      ensures pools == AutoUpdatedUpTo(cfg, awayFrom, listed, trouble.refused, done + {seen.name})
      ensures ReachedNodes() ==
        Tainted(cfg, awayFrom, old(ReachedNodes()), TaintsOfOne(seen.name, trouble.taintsFailing))
    {
      if seen.name == "general-purpose" || seen.name == "system" {
        AutoCreatedOneMore(cfg, awayFrom, listed, trouble.refused, done, seen.name);
        CreateCopy(cfg, awayFrom, updatedZones, seen, trouble.refused);
        TaintFor(cfg, awayFrom, seen.name, trouble);
      } else {
        AutoUpdatedOneMore(cfg, awayFrom, listed, trouble.refused, done, seen.name);
        UpdateInPlace(cfg, awayFrom, updatedZones, seen, trouble.refused);
      }
    }

    /** The taint pass that follows the creation of a copy. */
    method TaintFor(cfg: Config, awayFrom: string, name: string, trouble: Trouble)
      requires Ready() && BuiltIn(name)
      modifies nodeController
      ensures ReachedNodes() ==
        Tainted(cfg, awayFrom, old(ReachedNodes()), TaintsOfOne(name, trouble.taintsFailing))
    {
      NothingReached(cfg, doNotDisrupt, awayFrom);
      if !doNotDisrupt {
        var awayZoneName := ZoneName(cfg, awayFrom);
        if awayZoneName != "" && nodeController != null {
          var failing := if name in trouble.taintsFailing then trouble.taintsFailing[name] else {};
          OneTaintPass(ReachedNodes(), NodeStores.InZone(TrackedNodes(), awayZoneName), awayZoneName, failing);
          nodeController.TaintNodesInAZ(awayZoneName, failing);
        }
      }
    }

    /** The handler of a terminal event, start to end. */
    method RestoreKarpenterNodePool(cfg: Config, event: Event, trouble: Trouble, pick: Schedules.Scheduler)
      requires Ready() && Schedules.Picks(pick)
      modifies this, nodeController
      ensures trouble.listRefused ==> pools == old(pools)
      ensures !trouble.listRefused && cfg.isAutoMode ==>
        pools == AutoRestore(cfg, AwayOf(event), old(pools), trouble.refused)
      ensures !trouble.listRefused && !cfg.isAutoMode ==>
        pools == RestoredUpTo(cfg, AwayOf(event), old(pools), trouble.refused, old(pools).Keys)
      ensures NodesAsRestored(cfg, AwayOf(event), old(ReachedNodes()), trouble)
    {
      var awayZoneName := ZoneName(cfg, AwayOf(event));
      if awayZoneName == "" {
        awayZoneName := AwayOf(event);
      }
      NothingReached(cfg, doNotDisrupt, AwayOf(event));
      if doNotDisrupt && nodeController != null {
        var _ := nodeController.RemoveProtectionFromNodes(awayZoneName, trouble.failing, pick);
      }
      if trouble.listRefused {
        return;
      }
      var items := List();
      if cfg.isAutoMode {
        if !doNotDisrupt && nodeController != null {
          nodeController.RemoveTaintFromNodes(awayZoneName, trouble.failing);
        }
        AutoRestorePools(cfg, AwayOf(event), items, trouble.refused);
      } else {
        RestorePools(cfg, AwayOf(event), items, trouble.refused);
      }
    }

    method RestorePools(cfg: Config, awayFrom: string, items: seq<Item>, refused: set<Call>)
      requires Listing(pools, items)
      modifies this
      ensures pools == RestoredUpTo(cfg, awayFrom, old(pools), refused, old(pools).Keys)
    {
      NoneDone(cfg, awayFrom, pools, refused);
      for k := 0 to |items|
        invariant pools == RestoredUpTo(cfg, awayFrom, old(pools), refused, Names(items[..k]))
      {
        NextItem(old(pools), items, k);
        RestoredOneMore(cfg, awayFrom, old(pools), refused, Names(items[..k]), items[k].name);
        RestoreInPlace(cfg, awayFrom, items[k], refused);
      }
      assert items[..|items|] == items;
    }

    method AutoRestorePools(cfg: Config, awayFrom: string, items: seq<Item>, refused: set<Call>)
      requires Listing(pools, items)
      modifies this
      ensures pools == AutoRestore(cfg, awayFrom, old(pools), refused)
    {
      NoneDone(cfg, awayFrom, pools, refused);
      for k := 0 to |items|
        invariant pools == AutoRestoredUpTo(cfg, awayFrom, old(pools), refused, Names(items[..k]))
      {
        NextItem(old(pools), items, k);
        AutoRestoredOneMore(cfg, awayFrom, old(pools), refused, Names(items[..k]), items[k].name);
        if items[k].name == "general-purpose-kss" || items[k].name == "system-kss" {
          if DeleteOf(items[k].name) !in refused {
            pools := pools - {items[k].name};
          }
        } else {
          RestoreInPlace(cfg, awayFrom, items[k], refused);
        }
      }
      assert items[..|items|] == items;
      AllRestored(cfg, awayFrom, old(pools), refused);
    }

    ghost predicate EachNodeUpdated(cfg: Config, awayFrom: string, listed: Cluster, before: NodePasses.Nodes,
                                    trouble: Trouble)
      reads nodeController, Stores()
    {
      var now := ReachedNodes();
      forall n :: n in before ==>
        n in now && NodeUpdated(cfg, doNotDisrupt, awayFrom, TrackedNodes(), listed, trouble, n, before[n], now[n])
    }

    ghost predicate EachNodeRestored(cfg: Config, awayFrom: string, before: NodePasses.Nodes, trouble: Trouble)
      reads nodeController, Stores()
    {
      var now := ReachedNodes();
      forall n :: n in before ==>
        n in now && NodeRestored(cfg, doNotDisrupt, awayFrom, TrackedNodes(), trouble, n, before[n], now[n])
    }

    lemma RestoredOneByOne(cfg: Config, awayFrom: string, before: NodePasses.Nodes, trouble: Trouble)
      requires NodesAsRestored(cfg, awayFrom, before, trouble)
      ensures EachNodeRestored(cfg, awayFrom, before, trouble)
    {
      forall n | n in before {
        NodesRestoredAre(cfg, doNotDisrupt, awayFrom, TrackedNodes(), before, trouble, n);
      }
    }

    lemma UpdatedOneByOne(cfg: Config, awayFrom: string, listed: Cluster, before: NodePasses.Nodes, trouble: Trouble)
      requires NodesAsUpdated(cfg, awayFrom, listed, before, trouble)
      ensures EachNodeUpdated(cfg, awayFrom, listed, before, trouble)
    {
      var tracked := TrackedNodes();
      var items :| Listed(listed, trouble, items) &&
        ReachedNodes() == NodesUpdated(cfg, doNotDisrupt, awayFrom, tracked, before, items, trouble);
      forall n | n in before {
        NodesUpdatedAre(cfg, doNotDisrupt, awayFrom, tracked, before, listed, items, trouble, n);
      }
    }

    /** Dispatch on the event's type; unknown types change nothing. */
    method HandleEvent(cfg: Config, event: Event, trouble: Trouble, pick: Schedules.Scheduler)
      requires Ready() && Schedules.Picks(pick)
      modifies this, nodeController
      ensures trouble.listRefused || Dispatch(event).None? ==> pools == old(pools)
      ensures Dispatch(event).None? ==> ReachedNodes() == old(ReachedNodes())
      ensures !trouble.listRefused && !cfg.isAutoMode && Dispatch(event) == Some(Update) ==>
        pools == UpdatedUpTo(cfg, AwayOf(event), old(pools), trouble.refused, old(pools).Keys)
      ensures !trouble.listRefused && !cfg.isAutoMode && Dispatch(event) == Some(Restore) ==>
        pools == RestoredUpTo(cfg, AwayOf(event), old(pools), trouble.refused, old(pools).Keys)
      ensures !trouble.listRefused && cfg.isAutoMode && Dispatch(event) == Some(Update) ==>
        pools == AutoUpdate(cfg, AwayOf(event), old(pools), trouble.refused)
      ensures !trouble.listRefused && cfg.isAutoMode && Dispatch(event) == Some(Restore) ==>
        pools == AutoRestore(cfg, AwayOf(event), old(pools), trouble.refused)
      ensures Dispatch(event) == Some(Update) ==>
        NodesAsUpdated(cfg, AwayOf(event), old(pools), old(ReachedNodes()), trouble)
      ensures Dispatch(event) == Some(Restore) ==>
        NodesAsRestored(cfg, AwayOf(event), old(ReachedNodes()), trouble)
      ensures Dispatch(event) == Some(Update) ==>
        EachNodeUpdated(cfg, AwayOf(event), old(pools), old(ReachedNodes()), trouble)
      ensures Dispatch(event) == Some(Restore) ==>
        EachNodeRestored(cfg, AwayOf(event), old(ReachedNodes()), trouble)
    {
      match Dispatch(event)
      case Some(Update) =>
        UpdateKarpenterNodePool(cfg, event, trouble, pick);
        UpdatedOneByOne(cfg, AwayOf(event), old(pools), old(ReachedNodes()), trouble);
      case Some(Restore) =>
        RestoreKarpenterNodePool(cfg, event, trouble, pick);
        RestoredOneByOne(cfg, AwayOf(event), old(ReachedNodes()), trouble);
      case None =>
    }
  }

  /** Passes over no nodes. */
  lemma NothingReached(cfg: Config, doNotDisrupt: bool, awayFrom: string)
    ensures forall failures :: UpdateNodes(cfg, doNotDisrupt, awayFrom, map[], map[], failures) == map[]
    ensures forall failing :: RestoreNodes(cfg, doNotDisrupt, awayFrom, map[], map[], failing) == map[]
    ensures forall passes :: TaintNodes(cfg, doNotDisrupt, awayFrom, map[], map[], passes) == map[]
  {
    var name := ZoneName(cfg, awayFrom);
    forall passes
      ensures NodePasses.TaintPasses(map[], NodeStores.InZone(map[], name), name, passes) == map[]
    {
      NodePasses.TaintPassesOnlyTaint(map[], NodeStores.InZone(map[], name), name, passes);
    }
  }

  lemma OneTaintPass(nodes: NodePasses.Nodes, names: set<string>, az: string, failing: set<NodePasses.Call>)
    ensures NodePasses.TaintPasses(nodes, names, az, [failing]) == NodePasses.TaintPass(nodes, names, az, failing)
  {
    var none: seq<set<NodePasses.Call>> := [failing][1..];
    assert none == [];
  }

  /** The item a loop over the listed pools comes to next. */
  lemma NextItem(listed: Cluster, items: seq<Item>, k: nat)
    requires Listing(listed, items) && k < |items|
    ensures items[k].name in listed && listed[items[k].name] == items[k].pool
    ensures Names(items[..k + 1]) == Names(items[..k]) + {items[k].name} && items[k].name !in Names(items[..k])
  {
    NamesAppend(items, k);
  }

  lemma NamesAppend(items: seq<Item>, k: nat)
    requires k < |items|
    requires forall i, j :: 0 <= i < j < |items| ==> items[i].name != items[j].name
    ensures Names(items[..k + 1]) == Names(items[..k]) + {items[k].name} && items[k].name !in Names(items[..k])
  {
    assert items[..k + 1] == items[..k] + [items[k]];
    assert forall i :: 0 <= i < k ==> items[..k + 1][i] == items[..k][i];
    assert items[..k + 1][k] == items[k];
  }
}
