/** How the node store is filled: informer events, delivered in order, race with a
    list-then-add initialiser. */
module Informer {
  import opened Sequences
  import opened NodeStores

  const TOPOLOGY_LABEL := "topology.kubernetes.io/zone"
  const LEGACY_LABEL := "failure-domain.beta.kubernetes.io/zone"

  type Labels = map<string, string>

  datatype Metadata = Metadata(uid: nat, labels: Option<Labels>)

  datatype Status = Status(nodeName: Option<string>)

  /** What a handler is given.  A delete the informer missed arrives as a tombstone,
      which is not an unstructured object. */
  datatype Object =
    | Tombstone
    | NodeClaim(metadata: Option<Metadata>, status: Option<Status>)

  /** The zone an event handler reads: an empty topology label falls through. */
  function EventZone(labels: Labels): string {
    if TOPOLOGY_LABEL in labels && labels[TOPOLOGY_LABEL] != "" then labels[TOPOLOGY_LABEL]
    else if LEGACY_LABEL in labels then labels[LEGACY_LABEL]
    else ""
  }

  /** The zone the initialiser reads: a present topology label decides. */
  function ListZone(labels: Labels): string {
    if TOPOLOGY_LABEL in labels then labels[TOPOLOGY_LABEL]
    else if LEGACY_LABEL in labels then labels[LEGACY_LABEL]
    else ""
  }

  function NodeNameOf(obj: Object): string {
    if obj.NodeClaim? && obj.status.Some? && obj.status.value.nodeName.Some?
    then obj.status.value.nodeName.value
    else ""
  }

  /** What `processNodeClaim` makes of an object; anything incomplete is dropped. */
  function ReadEvent(obj: Object): Option<NodeInfo> {
    if obj.Tombstone? || obj.metadata.None? || NodeNameOf(obj) == "" || obj.metadata.value.labels.None? then None
    else Some(NodeInfo(NodeNameOf(obj), EventZone(obj.metadata.value.labels.value)))
  }

  /** What the initialiser makes of a listed claim; missing labels mean an empty zone. */
  function ReadListed(obj: Object): Option<NodeInfo> {
    if NodeNameOf(obj) == "" then None
    else if obj.metadata.Some? && obj.metadata.value.labels.Some?
      then Some(NodeInfo(NodeNameOf(obj), ListZone(obj.metadata.value.labels.value)))
    else Some(NodeInfo(NodeNameOf(obj), ""))
  }

  // The same, said of the fields alone.

  /** The claim reports that it has become node `name`. */
  predicate Reports(obj: Object, name: string) {
    name != "" && obj.NodeClaim? && obj.status.Some? && obj.status.value.nodeName == Some(name)
  }

  /** Whatever an event handler needs is there. */
  predicate Complete(obj: Object) {
    && obj.NodeClaim? && obj.metadata.Some? && obj.metadata.value.labels.Some?
    && obj.status.Some? && obj.status.value.nodeName.Some? && obj.status.value.nodeName.value != ""
  }

  /** The zone in the labels for an event handler: a topology label that is not empty,
      otherwise the legacy label, otherwise none. */
  predicate EventUnder(labels: Labels, zone: string) {
    var topology, legacy := "topology.kubernetes.io/zone", "failure-domain.beta.kubernetes.io/zone";
    if topology in labels && labels[topology] != "" then zone == labels[topology]
    else zone == if legacy in labels then labels[legacy] else ""
  }

  /** The zone of a listed claim for the initialiser: the topology label if there is one,
      otherwise the legacy label, otherwise none. */
  predicate ListedUnder(obj: Object, zone: string) {
    var topology, legacy := "topology.kubernetes.io/zone", "failure-domain.beta.kubernetes.io/zone";
    if obj.NodeClaim? && obj.metadata.Some? && obj.metadata.value.labels.Some? then
      var labels := obj.metadata.value.labels.value;
      if topology in labels then zone == labels[topology]
      else zone == if legacy in labels then labels[legacy] else ""
    else zone == ""
  }

  /** The labels send the two readers to different zones. */
  predicate LabelsClash(labels: Labels) {
    && TOPOLOGY_LABEL in labels && labels[TOPOLOGY_LABEL] == ""
    && LEGACY_LABEL in labels && labels[LEGACY_LABEL] != ""
  }

  /** Exactly when event handler and initialiser make the same of a claim: it has no node
      name, or it has labels and these do not clash. */
  lemma ReadersAgreeIff(obj: Object)
    ensures ReadEvent(obj) == ReadListed(obj) <==>
      || NodeNameOf(obj) == ""
      || (&& obj.metadata.Some? && obj.metadata.value.labels.Some?
          && !LabelsClash(obj.metadata.value.labels.value))
  {
  }

  type Store = map<string, NodeInfo>

  function Added(store: Store, info: Option<NodeInfo>): Store {
    if info.Some? then store[info.value.nodeName := info.value] else store
  }

  function Processed(store: Store, obj: Object, isDelete: bool): Store {
    if isDelete && ReadEvent(obj).Some? then store - {ReadEvent(obj).value.nodeName}
    else if isDelete then store
    else Added(store, ReadEvent(obj))
  }

  // ----- the race -----

  datatype Event = Upserted(obj: Object) | Deleted(obj: Object)

  datatype Initialiser =
    | NotListed
    | Adding(rest: seq<Object>)
    | Stopped

  /** `live` is the API server's view by claim UID, `gone` the UIDs deleted from it. */
  datatype World = World(live: map<nat, Object>, gone: set<nat>, pending: seq<Event>, store: Store,
                         initialiser: Initialiser)

  datatype Step =
    | Upsert(uid: nat, obj: Object)
    | Remove(uid: nat, missed: bool)
    | Deliver
    | ListClaims(listed: seq<Object>)
    | ListFails(giveUp: bool)
    | AddListed

  function Start(): World {
    World(map[], {}, [], map[], NotListed)
  }

  ghost predicate Enabled(w: World, step: Step) {
    match step
    case Upsert(uid, obj) => uid !in w.gone && obj.NodeClaim?
    case Remove(uid, _) => uid in w.live
    case Deliver => w.pending != []
    case ListClaims(listed) => w.initialiser.NotListed? && forall obj :: obj in listed <==> obj in w.live.Values
    case ListFails(_) => w.initialiser.NotListed?
    case AddListed => w.initialiser.Adding?
  }

  ghost function Apply(w: World, step: Step): World
    requires Enabled(w, step)
  {
    match step
    case Upsert(uid, obj) => w.(live := w.live[uid := obj], pending := w.pending + [Upserted(obj)])
    case Remove(uid, missed) =>
      w.(live := w.live - {uid}, gone := w.gone + {uid},
         pending := w.pending + [Deleted(if missed then Tombstone else w.live[uid])])
    case Deliver =>
      w.(pending := w.pending[1..], store := Processed(w.store, w.pending[0].obj, w.pending[0].Deleted?))
    case ListClaims(listed) => w.(initialiser := Adding(listed))
    case ListFails(giveUp) => if giveUp then w.(initialiser := Stopped) else w
    case AddListed =>
      if w.initialiser.rest == [] then w.(initialiser := Stopped)
      else w.(store := Added(w.store, ReadListed(w.initialiser.rest[0])),
              initialiser := Adding(w.initialiser.rest[1..]))
  }

  ghost predicate ValidRun(w: World, steps: seq<Step>)
    decreases |steps|
  {
    steps == [] || (Enabled(w, steps[0]) && ValidRun(Apply(w, steps[0]), steps[1..]))
  }

  ghost function Run(w: World, steps: seq<Step>): World
    requires ValidRun(w, steps)
    decreases |steps|
  {
    if steps == [] then w else Run(Apply(w, steps[0]), steps[1..])
  }

  /** A claim is fully populated for zone `zone`: it reports a node and its labels say
      that zone, to the event handler and to the initialiser. */
  predicate Populated(obj: Object, zone: string) {
    Complete(obj) && EventUnder(obj.metadata.value.labels.value, zone) && ListedUnder(obj, zone)
  }

  lemma PopulatedIsRead(obj: Object, zone: string)
    requires Populated(obj, zone)
    ensures Reports(obj, NodeNameOf(obj))
    ensures ReadEvent(obj) == Some(NodeInfo(NodeNameOf(obj), zone)) && ReadListed(obj) == ReadEvent(obj)
  {
  }

  /** The node name `node` only ever belongs to claim `uid`, whose zone label is fixed. */
  predicate Respects(step: Step, node: string, uid: nat, zone: string) {
    step.Upsert? && NodeNameOf(step.obj) == node ==> step.uid == uid && Populated(step.obj, zone)
  }

  predicate About(obj: Object, node: string) {
    NodeNameOf(obj) == node
  }

  ghost predicate Announced(w: World, node: string) {
    exists k :: 0 <= k < |w.pending| && w.pending[k].Upserted? && About(w.pending[k].obj, node)
  }

  ghost predicate Inv(w: World, node: string, uid: nat, zone: string) {
    && (forall u :: u in w.live ==> u !in w.gone && (About(w.live[u], node) ==> u == uid && Populated(w.live[u], zone)))
    && (forall k :: 0 <= k < |w.pending| && About(w.pending[k].obj, node) ==>
          Populated(w.pending[k].obj, zone) && (w.pending[k].Deleted? ==> uid in w.gone))
    && (w.initialiser.Adding? ==>
          forall k :: 0 <= k < |w.initialiser.rest| && About(w.initialiser.rest[k], node) ==>
            Populated(w.initialiser.rest[k], zone))
    && (node in w.store ==> w.store[node] == NodeInfo(node, zone))
    && (uid in w.live && About(w.live[uid], node) ==> node in w.store || Announced(w, node))
  }

  lemma StepInv(w: World, step: Step, node: string, uid: nat, zone: string)
    requires node != "" && Inv(w, node, uid, zone) && Enabled(w, step) && Respects(step, node, uid, zone)
    ensures Inv(Apply(w, step), node, uid, zone)
  {
    var x := Apply(w, step);
    match step
    case Upsert(u, obj) =>
      KeepAnnounced(w, x, Upserted(obj), node);
      assert x.pending[|w.pending|] == Upserted(obj);
    case Remove(u, missed) =>
      KeepAnnounced(w, x, x.pending[|w.pending|], node);
    case Deliver =>
      DeliverInv(w, node, uid, zone);
    case ListClaims(listed) =>
      assert Announced(w, node) ==> Announced(x, node);
      forall k | 0 <= k < |listed| && About(listed[k], node)
        ensures Populated(listed[k], zone)
      {
        assert listed[k] in w.live.Values;
        var u :| u in w.live && w.live[u] == listed[k];
      }
    case ListFails(_) =>
      assert Announced(w, node) ==> Announced(x, node);
    case AddListed =>
      assert Announced(w, node) ==> Announced(x, node);
      if w.initialiser.rest != [] {
        assert About(w.initialiser.rest[0], node) ==> Populated(w.initialiser.rest[0], zone);
      }
  }

  lemma KeepAnnounced(w: World, x: World, e: Event, node: string)
    requires x.pending == w.pending + [e]
    ensures Announced(w, node) ==> Announced(x, node)
  {
    if Announced(w, node) {
      var k :| 0 <= k < |w.pending| && w.pending[k].Upserted? && About(w.pending[k].obj, node);
      assert x.pending[k] == w.pending[k];
    }
  }

  lemma DeliverInv(w: World, node: string, uid: nat, zone: string)
    requires node != "" && Inv(w, node, uid, zone) && w.pending != []
    ensures Inv(Apply(w, Deliver), node, uid, zone)
  {
    var x := Apply(w, Deliver);
    var head := w.pending[0];
    assert About(head.obj, node) ==> Populated(head.obj, zone);
    if uid in w.live && About(w.live[uid], node) && !(node in w.store) {
      var k :| 0 <= k < |w.pending| && w.pending[k].Upserted? && About(w.pending[k].obj, node);
      if k > 0 {
        assert x.pending[k - 1] == w.pending[k];
      }
    }
  }

  lemma {:induction false} RunInv(w: World, steps: seq<Step>, node: string, uid: nat, zone: string)
    requires node != "" && Inv(w, node, uid, zone) && ValidRun(w, steps)
    requires forall i :: 0 <= i < |steps| ==> Respects(steps[i], node, uid, zone)
    ensures Inv(Run(w, steps), node, uid, zone)
    decreases |steps|
  {
    if steps != [] {
      StepInv(w, steps[0], node, uid, zone);
      RunInv(Apply(w, steps[0]), steps[1..], node, uid, zone);
    }
  }

  /** Store completeness: however events, deliveries and the initialiser interleave,
      once all events are delivered a live claim that carries the node name is in the
      store, under its zone. */
  lemma StoreIsComplete(steps: seq<Step>, node: string, uid: nat, zone: string)
    requires node != "" && ValidRun(Start(), steps)
    requires forall i :: 0 <= i < |steps| ==> Respects(steps[i], node, uid, zone)
    requires var end := Run(Start(), steps);
      end.pending == [] && uid in end.live && NodeNameOf(end.live[uid]) == node
    ensures var end := Run(Start(), steps);
      node in end.store && end.store[node] == NodeInfo(node, zone) && (zone != "" ==> node in InZone(end.store, zone))
  {
    RunInv(Start(), steps, node, uid, zone);
  }

  // ----- what else the store may hold -----

  /** Claim `uid` keeps the node name once it has it. */
  ghost predicate Keeps(w: World, step: Step, node: string, uid: nat) {
    step.Upsert? && step.uid == uid && Carries(w, node, uid) ==> About(step.obj, node)
  }

  ghost predicate Carries(w: World, node: string, uid: nat) {
    uid in w.live && About(w.live[uid], node)
  }

  ghost predicate Orderly(w: World, steps: seq<Step>, node: string, uid: nat, zone: string)
    requires ValidRun(w, steps)
    decreases |steps|
  {
    steps != [] ==>
      && Respects(steps[0], node, uid, zone) && Keeps(w, steps[0], node, uid)
      && Orderly(Apply(w, steps[0]), steps[1..], node, uid, zone)
  }

  /** A delete that names the node is on its way. */
  ghost predicate Expiring(w: World, node: string) {
    exists k :: 0 <= k < |w.pending| && w.pending[k].Deleted? && About(w.pending[k].obj, node)
  }

  /** A step that leaves the node behind: the claim goes and the informer misses it, or
      the initialiser adds it from its old list after the claim's delete has been handled. */
  ghost predicate Strands(w: World, step: Step, node: string, uid: nat) {
    || (step == Remove(uid, true) && Carries(w, node, uid))
    || (step.AddListed? && w.initialiser.Adding? && w.initialiser.rest != [] && About(w.initialiser.rest[0], node)
        && uid in w.gone && !Expiring(w, node))
  }

  ghost predicate Stranded(w: World, steps: seq<Step>, node: string, uid: nat)
    requires ValidRun(w, steps)
    decreases |steps|
  {
    steps != [] && (Strands(w, steps[0], node, uid) || Stranded(Apply(w, steps[0]), steps[1..], node, uid))
  }

  /** No trace of the node anywhere. */
  ghost predicate Untraced(w: World, node: string) {
    && node !in w.store
    && (forall k :: 0 <= k < |w.pending| ==> !About(w.pending[k].obj, node))
  }

  /** `stranded` says whether a step so far has left the node behind. */
  ghost predicate Traced(w: World, node: string, uid: nat, stranded: bool) {
    && (stranded ==> uid in w.gone && !Expiring(w, node) && (node in w.store || Announced(w, node)))
    && (uid !in w.gone ==> !Expiring(w, node))
    && (uid !in w.gone && !Carries(w, node, uid) ==>
          && Untraced(w, node)
          && (w.initialiser.Adding? ==>
                forall k :: 0 <= k < |w.initialiser.rest| ==> !About(w.initialiser.rest[k], node)))
    && (uid in w.gone && !stranded ==> Expiring(w, node) || Untraced(w, node))
    && (forall j, k :: 0 <= j < k < |w.pending| && w.pending[j].Deleted? && About(w.pending[j].obj, node) ==>
          !About(w.pending[k].obj, node))
  }

  /** The same queue, one event longer. */
  lemma KeepExpiring(w: World, x: World, e: Event, node: string)
    requires x.pending == w.pending + [e]
    ensures Expiring(x, node) <==> Expiring(w, node) || (e.Deleted? && About(e.obj, node))
  {
    if Expiring(w, node) {
      var k :| 0 <= k < |w.pending| && w.pending[k].Deleted? && About(w.pending[k].obj, node);
      assert x.pending[k] == w.pending[k];
    }
    assert x.pending[|w.pending|] == e;
  }

  lemma UpsertTraced(w: World, u: nat, obj: Object, node: string, uid: nat, zone: string, stranded: bool)
    requires node != "" && Inv(w, node, uid, zone) && Traced(w, node, uid, stranded) && Enabled(w, Upsert(u, obj))
    requires Respects(Upsert(u, obj), node, uid, zone) && Keeps(w, Upsert(u, obj), node, uid)
    ensures Traced(Apply(w, Upsert(u, obj)), node, uid, stranded)
  {
    var x := Apply(w, Upsert(u, obj));
    KeepExpiring(w, x, Upserted(obj), node);
    KeepAnnounced(w, x, Upserted(obj), node);
  }

  lemma RemoveTraced(w: World, u: nat, missed: bool, node: string, uid: nat, zone: string, stranded: bool)
    requires node != "" && Inv(w, node, uid, zone) && Traced(w, node, uid, stranded) && Enabled(w, Remove(u, missed))
    ensures Traced(Apply(w, Remove(u, missed)), node, uid, stranded || Strands(w, Remove(u, missed), node, uid))
  {
    var x := Apply(w, Remove(u, missed));
    var e := x.pending[|w.pending|];
    KeepExpiring(w, x, e, node);
    KeepAnnounced(w, x, e, node);
  }

  lemma DeliverTraced(w: World, node: string, uid: nat, zone: string, stranded: bool)
    requires node != "" && Inv(w, node, uid, zone) && Traced(w, node, uid, stranded) && w.pending != []
    ensures Traced(Apply(w, Deliver), node, uid, stranded)
  {
    var x := Apply(w, Deliver);
    var head := w.pending[0];
    assert forall k :: 0 <= k < |x.pending| ==> x.pending[k] == w.pending[k + 1];
    assert About(head.obj, node) ==> Populated(head.obj, zone);
    HeadLeaves(w, x, node);
  }

  /** The same queue without its first event. */
  lemma HeadLeaves(w: World, x: World, node: string)
    requires w.pending != [] && x.pending == w.pending[1..]
    ensures var head := w.pending[0];
      && (Expiring(x, node) ==> Expiring(w, node))
      && (Expiring(w, node) && !(head.Deleted? && About(head.obj, node)) ==> Expiring(x, node))
      && (Announced(w, node) && !(head.Upserted? && About(head.obj, node)) ==> Announced(x, node))
  {
    if Expiring(w, node) {
      var k :| 0 <= k < |w.pending| && w.pending[k].Deleted? && About(w.pending[k].obj, node);
      assert k > 0 ==> x.pending[k - 1] == w.pending[k];
    }
    if Expiring(x, node) {
      var k :| 0 <= k < |x.pending| && x.pending[k].Deleted? && About(x.pending[k].obj, node);
      assert w.pending[k + 1] == x.pending[k];
    }
    if Announced(w, node) {
      var k :| 0 <= k < |w.pending| && w.pending[k].Upserted? && About(w.pending[k].obj, node);
      assert k > 0 ==> x.pending[k - 1] == w.pending[k];
    }
  }

  lemma InitialiserTraced(w: World, step: Step, node: string, uid: nat, zone: string, stranded: bool)
    requires node != "" && Inv(w, node, uid, zone) && Traced(w, node, uid, stranded) && Enabled(w, step)
    requires step.ListClaims? || step.ListFails? || step.AddListed?
    ensures Traced(Apply(w, step), node, uid, stranded || Strands(w, step, node, uid))
  {
    var x := Apply(w, step);
    assert x.pending == w.pending;
    assert Announced(x, node) <==> Announced(w, node);
    assert Expiring(x, node) <==> Expiring(w, node);
    if step.ListClaims? {
      forall k | 0 <= k < |step.listed| && About(step.listed[k], node)
        ensures Carries(w, node, uid)
      {
        assert step.listed[k] in w.live.Values;
        var u :| u in w.live && w.live[u] == step.listed[k];
      }
    } else if step.AddListed? && w.initialiser.rest != [] {
      assert About(w.initialiser.rest[0], node) ==> Populated(w.initialiser.rest[0], zone);
    }
  }

  lemma StepTraced(w: World, step: Step, node: string, uid: nat, zone: string, stranded: bool)
    requires node != "" && Inv(w, node, uid, zone) && Traced(w, node, uid, stranded) && Enabled(w, step)
    requires Respects(step, node, uid, zone) && Keeps(w, step, node, uid)
    ensures Traced(Apply(w, step), node, uid, stranded || Strands(w, step, node, uid))
  {
    match step
    case Upsert(u, obj) => UpsertTraced(w, u, obj, node, uid, zone, stranded);
    case Remove(u, missed) => RemoveTraced(w, u, missed, node, uid, zone, stranded);
    case Deliver => DeliverTraced(w, node, uid, zone, stranded);
    case _ => InitialiserTraced(w, step, node, uid, zone, stranded);
  }

  lemma {:induction false} RunTraced(w: World, steps: seq<Step>, node: string, uid: nat, zone: string, stranded: bool)
    requires node != "" && Inv(w, node, uid, zone) && Traced(w, node, uid, stranded)
    requires ValidRun(w, steps) && Orderly(w, steps, node, uid, zone)
    ensures Inv(Run(w, steps), node, uid, zone)
    ensures Traced(Run(w, steps), node, uid, stranded || Stranded(w, steps, node, uid))
    decreases |steps|
  {
    if steps != [] {
      StepInv(w, steps[0], node, uid, zone);
      StepTraced(w, steps[0], node, uid, zone, stranded);
      RunTraced(Apply(w, steps[0]), steps[1..], node, uid, zone, stranded || Strands(w, steps[0], node, uid));
    }
  }

  /** What the store holds, exactly: once all events are delivered, a node is in it if
      and only if its claim is live and carries it, or some step of the run has left it
      behind.  Stranding is the only way the store can be wrong, and nothing repairs it. */
  lemma StoreHoldsIff(steps: seq<Step>, node: string, uid: nat, zone: string)
    requires node != "" && ValidRun(Start(), steps) && Orderly(Start(), steps, node, uid, zone)
    requires Run(Start(), steps).pending == []
    ensures var end := Run(Start(), steps);
      && (node in end.store <==> Carries(end, node, uid) || Stranded(Start(), steps, node, uid))
      && (node in end.store ==> end.store[node] == NodeInfo(node, zone))
      && (Stranded(Start(), steps, node, uid) ==> uid in end.gone)
  {
    RunTraced(Start(), steps, node, uid, zone, false);
    var end := Run(Start(), steps);
    assert !Announced(end, node) && !Expiring(end, node);
  }

  // ----- the two ways to be left behind -----

  /** A claim deleted between the list call and the add is put back and stays, although
      every event has been delivered. */
  lemma StaleNodeStays(uid: nat, obj: Object, zone: string)
    requires Populated(obj, zone)
    ensures var steps := [Upsert(uid, obj), Deliver, ListClaims([obj]), Remove(uid, false), Deliver, AddListed,
                          AddListed];
      && ValidRun(Start(), steps)
      && var end := Run(Start(), steps);
         end.pending == [] && end.live == map[] && end.initialiser == Stopped && NodeNameOf(obj) in end.store
  {
    var w1 := Apply(Start(), Upsert(uid, obj));
    var w2 := Apply(w1, Deliver);
    assert w2.live == map[uid := obj] && w2.pending == [];
    assert forall o :: o in [obj] <==> o in w2.live.Values by {
      assert uid in w2.live && w2.live[uid] == obj;
    }
    var w3 := Apply(w2, ListClaims([obj]));
    var w4 := Apply(w3, Remove(uid, false));
    assert w4.pending == [Deleted(obj)] && w4.live == map[];
    var w5 := Apply(w4, Deliver);
    var w6 := Apply(w5, AddListed);
    assert w6.initialiser == Adding([]);
    var w7 := Apply(w6, AddListed);
    assert ValidRun(w6, [AddListed]) && Run(w6, [AddListed]) == w7;
    assert ValidRun(w5, [AddListed, AddListed]) && Run(w5, [AddListed, AddListed]) == w7 by {
      assert [AddListed, AddListed][1..] == [AddListed];
    }
    StepOn(w4, Deliver, [AddListed, AddListed]);
    StepOn(w3, Remove(uid, false), [Deliver, AddListed, AddListed]);
    StepOn(w2, ListClaims([obj]), [Remove(uid, false), Deliver, AddListed, AddListed]);
    StepOn(w1, Deliver, [ListClaims([obj]), Remove(uid, false), Deliver, AddListed, AddListed]);
    StepOn(Start(), Upsert(uid, obj), [Deliver, ListClaims([obj]), Remove(uid, false), Deliver, AddListed, AddListed]);
  }

  lemma StepOn(w: World, step: Step, rest: seq<Step>)
    requires Enabled(w, step) && ValidRun(Apply(w, step), rest)
    ensures ValidRun(w, [step] + rest) && Run(w, [step] + rest) == Run(Apply(w, step), rest)
  {
    assert ([step] + rest)[1..] == rest;
  }

  /** A claim whose delete the informer missed stays too, without any initialiser: the
      tombstone it gets instead names no node. */
  lemma MissedNodeStays(uid: nat, obj: Object, zone: string)
    requires Populated(obj, zone)
    ensures var steps := [Upsert(uid, obj), Deliver, Remove(uid, true), Deliver];
      && ValidRun(Start(), steps)
      && var end := Run(Start(), steps);
         end.pending == [] && end.live == map[] && end.initialiser == NotListed && NodeNameOf(obj) in end.store
  {
    var w1 := Apply(Start(), Upsert(uid, obj));
    var w2 := Apply(w1, Deliver);
    assert w2.live == map[uid := obj] && w2.pending == [];
    var w3 := Apply(w2, Remove(uid, true));
    assert w3.pending == [Deleted(Tombstone)] && w3.live == map[];
    var w4 := Apply(w3, Deliver);
    assert w4.pending == [];
    var none: seq<Step> := [];
    StepOn(w3, Deliver, none);
    StepOn(w2, Remove(uid, true), [Deliver] + none);
    StepOn(w1, Deliver, [Remove(uid, true)] + ([Deliver] + none));
    StepOn(Start(), Upsert(uid, obj), [Deliver] + ([Remove(uid, true)] + ([Deliver] + none)));
    assert [Upsert(uid, obj)] + ([Deliver] + ([Remove(uid, true)] + ([Deliver] + none))) ==
           [Upsert(uid, obj), Deliver, Remove(uid, true), Deliver];
  }

  /** A claim without labels is stored by the initialiser only, and its delete event is
      dropped, missed or not: its node stays, under no zone. */
  lemma UnlabelledNodeStays(uid: nat, obj: Object)
    requires obj.NodeClaim? && NodeNameOf(obj) != "" && ReadEvent(obj).None?
    ensures var steps := [Upsert(uid, obj), Deliver, ListClaims([obj]), AddListed, AddListed, Remove(uid, false),
                          Deliver];
      && ValidRun(Start(), steps)
      && var end := Run(Start(), steps);
         && end.pending == [] && end.live == map[] && end.initialiser == Stopped
         && end.store == map[NodeNameOf(obj) := NodeInfo(NodeNameOf(obj), "")]
  {
    var w1 := Apply(Start(), Upsert(uid, obj));
    var w2 := Apply(w1, Deliver);
    assert w2.live == map[uid := obj] && w2.pending == [];
    assert forall o :: o in [obj] <==> o in w2.live.Values by {
      assert uid in w2.live && w2.live[uid] == obj;
    }
    var w3 := Apply(w2, ListClaims([obj]));
    var w4 := Apply(w3, AddListed);
    assert w4.initialiser == Adding([]);
    var w5 := Apply(w4, AddListed);
    var w6 := Apply(w5, Remove(uid, false));
    assert w6.pending == [Deleted(obj)] && w6.live == map[];
    var none: seq<Step> := [];
    StepOn(w6, Deliver, none);
    StepOn(w5, Remove(uid, false), [Deliver] + none);
    StepOn(w4, AddListed, [Remove(uid, false)] + ([Deliver] + none));
    StepOn(w3, AddListed, [AddListed] + ([Remove(uid, false)] + ([Deliver] + none)));
    var rest := [AddListed] + ([AddListed] + ([Remove(uid, false)] + ([Deliver] + none)));
    StepOn(w2, ListClaims([obj]), rest);
    StepOn(w1, Deliver, [ListClaims([obj])] + rest);
    StepOn(Start(), Upsert(uid, obj), [Deliver] + ([ListClaims([obj])] + rest));
    assert [Upsert(uid, obj)] + ([Deliver] + ([ListClaims([obj])] + rest)) ==
           [Upsert(uid, obj), Deliver, ListClaims([obj]), AddListed, AddListed, Remove(uid, false), Deliver];
  }
}
