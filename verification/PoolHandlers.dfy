/** The event handlers as a transition system over the cluster.

    Every arriving event starts a handler.  A handler lists all pools once, then
    works through that snapshot pool by pool, spec patch first and annotation
    patch second, while other handlers do the same; in auto mode it
    creates or deletes the copies of the built-in pools on the way.  The module
    ends with the projection that the theorems are proved through: seen from one
    pool, a step of the system is a step of a much smaller system or nothing. */
module PoolHandlers {
  import opened Sequences
  import opened Pools
  import opened AutoMode

  datatype Event = Event(detailType: string, awayFrom: string, metadataAwayFrom: string)

  /** Metadata wins over detail. */
  function AwayOf(event: Event): string {
    if event.metadataAwayFrom != "" then event.metadataAwayFrom else event.awayFrom
  }

  datatype Kind = Update | Restore

  /** The handler an event starts; unknown types start none. */
  function Dispatch(event: Event): Option<Kind> {
    if event.detailType in {"Autoshift In Progress", "FIS Experiment Autoshift In Progress",
                            "Practice Run Started"} then
      Some(Update)
    else if event.detailType in {"Autoshift Completed", "FIS Experiment Autoshift Canceled",
                                 "FIS Experiment Autoshift Completed",
                                 "Practice Run Succeeded", "Practice Run Interrupted", "Practice Run Failed"} then
      Some(Restore)
    else
      None
  }

  /** The nine types, and whose zone counts, spelled out. */
  lemma EventsAre(event: Event)
    ensures event.metadataAwayFrom != "" ==> AwayOf(event) == event.metadataAwayFrom
    ensures event.metadataAwayFrom == "" ==> AwayOf(event) == event.awayFrom
    ensures Dispatch(event) == Some(Update) <==>
      || event.detailType == "Autoshift In Progress"
      || event.detailType == "FIS Experiment Autoshift In Progress"
      || event.detailType == "Practice Run Started"
    ensures Dispatch(event) == Some(Restore) <==>
      || event.detailType == "Autoshift Completed"
      || event.detailType == "FIS Experiment Autoshift Canceled"
      || event.detailType == "FIS Experiment Autoshift Completed"
      || event.detailType == "Practice Run Succeeded"
      || event.detailType == "Practice Run Interrupted"
      || event.detailType == "Practice Run Failed"
  {
  }

  datatype Item = Item(name: string, pool: Pool)

  type Cluster = map<string, Pool>

  /** A handler working through its snapshot has dealt with `next` pools; `patched`
      says the spec patch for the next one is already out. */
  datatype Progress =
    | Starting
    | Working(items: seq<Item>, next: nat, patched: bool)
    | Stopped                                              // the list call failed

  datatype Handler = Handler(kind: Kind, awayFrom: string, progress: Progress)

  datatype System = System(cluster: Cluster, handlers: seq<Handler>)

  datatype Step =
    | Arrive(event: Event)
    | ListPools(h: nat, items: seq<Item>)
    | ListFails(h: nat)
    | PassOver(h: nat)                                     // nothing to change on the next pool
    | Send(h: nat, accepted: bool)                         // the patch that is due
    | Act(h: nat, accepted: bool)                          // create or delete a copy

  /** What the list call may return: every pool once, in some order. */
  ghost predicate Listing(cluster: Cluster, items: seq<Item>) {
    && (forall i :: 0 <= i < |items| ==> items[i].name in cluster && cluster[items[i].name] == items[i].pool)
    && (forall i, j :: 0 <= i < j < |items| ==> items[i].name != items[j].name)
    && Names(items) == cluster.Keys
  }

  function Names(items: seq<Item>): set<string> {
    set i | 0 <= i < |items| :: items[i].name
  }

  /** The first patch the handler sends for a pool as it saw it. */
  function Plan(cfg: Config, kind: Kind, awayFrom: string, seen: Pool): Option<Patch> {
    match kind
    case Update => UpdatePatch(cfg, awayFrom, seen)
    case Restore => RestorePatch(cfg, awayFrom, seen)
  }

  /** The annotation value the handler leaves behind. */
  function Mark(kind: Kind, awayFrom: string): Option<string> {
    match kind
    case Update => Some(awayFrom)
    case Restore => None
  }

  /** What a handler does about a pool as it saw it. */
  datatype Task =
    | Leave
    | Rewrite(patch: Patch)
    | Create(name: string, pool: Pool)
    | Delete(name: string)

  function TaskOf(cfg: Config, kind: Kind, awayFrom: string, seen: Item): Task {
    if cfg.isAutoMode && kind == Update && BuiltIn(seen.name) then
      if UpdatedZones(cfg, awayFrom) == [] then Leave
      else Create(CopyName(seen.name), Copy(cfg, awayFrom, seen.name, seen.pool))
    else if cfg.isAutoMode && kind == Restore && IsCopyName(seen.name) then
      Delete(seen.name)
    else match Plan(cfg, kind, awayFrom, seen.pool)
      case Some(patch) => Rewrite(patch)
      case None => Leave
  }

  /** Pools that handlers only ever change in place: all of them in standard mode. */
  predicate Plain(cfg: Config, name: string) {
    cfg.isAutoMode ==> !BuiltIn(name) && !IsCopyName(name)
  }

  predicate AtItem(h: Handler) {
    h.progress.Working? && h.progress.next < |h.progress.items|
  }

  function ItemTask(cfg: Config, h: Handler): Task
    requires AtItem(h)
  {
    TaskOf(cfg, h.kind, h.awayFrom, h.progress.items[h.progress.next])
  }

  ghost predicate Enabled(cfg: Config, s: System, step: Step) {
    match step
    case Arrive(_) => true
    case ListPools(h, items) => h < |s.handlers| && s.handlers[h].progress.Starting? && Listing(s.cluster, items)
    case ListFails(h) => h < |s.handlers| && s.handlers[h].progress.Starting?
    case PassOver(h) =>
      && h < |s.handlers| && AtItem(s.handlers[h])
      && !s.handlers[h].progress.patched && ItemTask(cfg, s.handlers[h]).Leave?
    case Send(h, _) => h < |s.handlers| && AtItem(s.handlers[h]) && ItemTask(cfg, s.handlers[h]).Rewrite?
    case Act(h, _) =>
      && h < |s.handlers| && AtItem(s.handlers[h])
      && (ItemTask(cfg, s.handlers[h]).Create? || ItemTask(cfg, s.handlers[h]).Delete?)
  }

  /** A JSON merge patch of a pool's spec; a refused one, or one of a pool that is gone, does nothing. */
  function PatchSpec(cluster: Cluster, name: string, patch: Patch, accepted: bool): Cluster {
    if accepted && name in cluster then cluster[name := Accept(cluster[name], patch)] else cluster
  }

  /** The annotation patch: a value sets the annotation, null deletes it. */
  function PatchAnnotation(cluster: Cluster, name: string, away: Option<string>, accepted: bool): Cluster {
    if accepted && name in cluster then cluster[name := cluster[name].(away := away)] else cluster
  }

  ghost function Apply(cfg: Config, s: System, step: Step): System
    requires Enabled(cfg, s, step)
  {
    match step
    case Arrive(event) =>
      if Dispatch(event).None? then s
      else s.(handlers := s.handlers + [Handler(Dispatch(event).value, AwayOf(event), Starting)])
    case ListPools(h, items) => Move(s, h, Working(items, 0, false))
    case ListFails(h) => Move(s, h, Stopped)
    case PassOver(h) => Move(s, h, s.handlers[h].progress.(next := s.handlers[h].progress.next + 1))
    case Send(h, accepted) =>
      var handler := s.handlers[h];
      var p := handler.progress;
      var name := p.items[p.next].name;
      if !p.patched then
        Move(s.(cluster := PatchSpec(s.cluster, name, ItemTask(cfg, handler).patch, accepted)), h, p.(patched := true))
      else
        Move(s.(cluster := PatchAnnotation(s.cluster, name, Mark(handler.kind, handler.awayFrom), accepted)), h,
             p.(next := p.next + 1, patched := false))
    case Act(h, accepted) =>
      var handler := s.handlers[h];
      Move(s.(cluster := if accepted then Perform(s.cluster, ItemTask(cfg, handler)) else s.cluster), h,
           handler.progress.(next := handler.progress.next + 1, patched := false))
  }

  /** Creating a pool that exists already is refused by the cluster. */
  function Perform(cluster: Cluster, task: Task): Cluster
    requires task.Create? || task.Delete?
  {
    match task
    case Create(name, pool) => if name in cluster then cluster else cluster[name := pool]
    case Delete(name) => cluster - {name}
  }

  function Move(s: System, h: nat, progress: Progress): System
    requires h < |s.handlers|
  {
    s.(handlers := s.handlers[h := s.handlers[h].(progress := progress)])
  }

  ghost predicate ValidRun(cfg: Config, s: System, steps: seq<Step>)
    decreases |steps|
  {
    steps == [] || (Enabled(cfg, s, steps[0]) && ValidRun(cfg, Apply(cfg, s, steps[0]), steps[1..]))
  }

  ghost function Run(cfg: Config, s: System, steps: seq<Step>): System
    requires ValidRun(cfg, s, steps)
    decreases |steps|
  {
    if steps == [] then s else Run(cfg, Apply(cfg, s, steps[0]), steps[1..])
  }

  predicate Done(h: Handler) {
    h.progress.Stopped? || (h.progress.Working? && h.progress.next >= |h.progress.items|)
  }

  // ----- the system as one pool sees it -----

  datatype Position =
    | Idle
    | Seen(pool: Pool)                      // in the snapshot, not reached yet
    | Half(pool: Pool)                      // spec patch out, annotation patch due
    | Over(patched: bool)

  datatype Visitor = Visitor(kind: Kind, awayFrom: string, position: Position)

  datatype View = View(pool: Pool, visitors: seq<Visitor>)

  datatype Visit =
    | Join(kind: Kind, awayFrom: string)
    | Look(v: nat)
    | Fail(v: nat)
    | Pass(v: nat)
    | Write(v: nat, accepted: bool)
    | Elsewhere                             // something happens that this pool cannot tell

  function VisitorPlan(cfg: Config, v: Visitor): Option<Patch>
    requires v.position.Seen? || v.position.Half?
  {
    Plan(cfg, v.kind, v.awayFrom, v.position.pool)
  }

  predicate CanVisit(cfg: Config, w: View, visit: Visit) {
    match visit
    case Join(_, _) => true
    case Look(v) => v < |w.visitors| && w.visitors[v].position.Idle?
    case Fail(v) => v < |w.visitors| && w.visitors[v].position.Idle?
    case Pass(v) => v < |w.visitors| && w.visitors[v].position.Seen? && VisitorPlan(cfg, w.visitors[v]).None?
    case Write(v, _) =>
      && v < |w.visitors| && (w.visitors[v].position.Seen? || w.visitors[v].position.Half?)
      && VisitorPlan(cfg, w.visitors[v]).Some?
    case Elsewhere => true
  }

  function At(w: View, v: nat, position: Position): View
    requires v < |w.visitors|
  {
    w.(visitors := w.visitors[v := w.visitors[v].(position := position)])
  }

  function ApplyVisit(cfg: Config, w: View, visit: Visit): View
    requires CanVisit(cfg, w, visit)
  {
    match visit
    case Join(kind, awayFrom) => w.(visitors := w.visitors + [Visitor(kind, awayFrom, Idle)])
    case Look(v) => At(w, v, Seen(w.pool))
    case Fail(v) => At(w, v, Over(false))
    case Pass(v) => At(w, v, Over(false))
    case Write(v, accepted) =>
      var it := w.visitors[v];
      if it.position.Seen? then
        At(if accepted then w.(pool := Accept(w.pool, VisitorPlan(cfg, it).value)) else w, v, Half(it.position.pool))
      else
        At(if accepted then w.(pool := w.pool.(away := Mark(it.kind, it.awayFrom))) else w, v, Over(true))
    case Elsewhere => w
  }

  // ----- projection -----

  function IndexOf(items: seq<Item>, name: string): (i: nat)
    ensures i <= |items|
    ensures i < |items| ==> items[i].name == name
    ensures forall j :: 0 <= j < i ==> items[j].name != name
  {
    if items == [] || items[0].name == name then 0 else 1 + IndexOf(items[1..], name)
  }

  function PositionOf(cfg: Config, h: Handler, name: string): Position {
    match h.progress
    case Starting => Idle
    case Stopped => Over(false)
    case Working(items, next, patched) =>
      var i := IndexOf(items, name);
      if i == |items| then Over(false)
      else if next < i || (next == i && !patched) then Seen(items[i].pool)
      else if next == i then Half(items[i].pool)
      else Over(Plan(cfg, h.kind, h.awayFrom, items[i].pool).Some?)
  }

  function VisitorOf(cfg: Config, h: Handler, name: string): Visitor {
    Visitor(h.kind, h.awayFrom, PositionOf(cfg, h, name))
  }

  function ViewOf(cfg: Config, s: System, name: string): View
    requires name in s.cluster
  {
    View(s.cluster[name], seq(|s.handlers|, h requires 0 <= h < |s.handlers| => VisitorOf(cfg, s.handlers[h], name)))
  }

  /** Snapshots name no pool twice and miss no plain one. */
  ghost predicate SnapshotOk(cfg: Config, cluster: Cluster, h: Handler) {
    h.progress.Working? ==>
      && (forall i, j :: 0 <= i < j < |h.progress.items| ==> h.progress.items[i].name != h.progress.items[j].name)
      && (forall n :: n in cluster && Plain(cfg, n) ==> IndexOf(h.progress.items, n) < |h.progress.items|)
      && h.progress.next <= |h.progress.items|
      && (h.progress.patched ==> AtItem(h) && ItemTask(cfg, h).Rewrite?)
  }

  ghost predicate WellFormed(cfg: Config, s: System) {
    forall h :: 0 <= h < |s.handlers| ==> SnapshotOk(cfg, s.cluster, s.handlers[h])
  }

  function PlainKeys(cfg: Config, cluster: Cluster): set<string> {
    set n | n in cluster && Plain(cfg, n)
  }

  /** The same pool names, copies in auto mode aside. */
  ghost predicate SameNames(cfg: Config, before: Cluster, after: Cluster) {
    && (forall n :: n in before && !(cfg.isAutoMode && IsCopyName(n)) ==> n in after)
    && (forall n :: n in after && !(cfg.isAutoMode && IsCopyName(n)) ==> n in before)
  }

  /** Only copies come and go. */
  lemma StepPlainKeys(cfg: Config, s: System, step: Step)
    requires Enabled(cfg, s, step)
    ensures SameNames(cfg, s.cluster, Apply(cfg, s, step).cluster)
    ensures PlainKeys(cfg, Apply(cfg, s, step).cluster) == PlainKeys(cfg, s.cluster)
  {
    CopyNames();
  }

  lemma SnapshotSurvives(cfg: Config, before: Cluster, after: Cluster, h: Handler)
    requires SnapshotOk(cfg, before, h) && PlainKeys(cfg, after) == PlainKeys(cfg, before)
    ensures SnapshotOk(cfg, after, h)
  {
    assert forall n :: n in after && Plain(cfg, n) ==> n in PlainKeys(cfg, before);
  }

  lemma StepWellFormed(cfg: Config, s: System, step: Step)
    requires WellFormed(cfg, s) && Enabled(cfg, s, step)
    ensures WellFormed(cfg, Apply(cfg, s, step))
    ensures PlainKeys(cfg, Apply(cfg, s, step).cluster) == PlainKeys(cfg, s.cluster)
  {
    var t := Apply(cfg, s, step);
    StepPlainKeys(cfg, s, step);
    forall h | 0 <= h < |t.handlers|
      ensures SnapshotOk(cfg, t.cluster, t.handlers[h])
    {
      if h < |s.handlers| {
        assert SnapshotOk(cfg, s.cluster, s.handlers[h]);
        SnapshotSurvives(cfg, s.cluster, t.cluster, s.handlers[h]);
      }
    }
  }

  /** How the pool called `name` perceives a step. */
  function VisitOf(s: System, step: Step, name: string): Visit {
    match step
    case Arrive(event) => if Dispatch(event).Some? then Join(Dispatch(event).value, AwayOf(event)) else Elsewhere
    case ListPools(h, _) => Look(h)
    case ListFails(h) => Fail(h)
    case PassOver(h) => if AboutPool(s, h, name) then Pass(h) else Elsewhere
    case Send(h, accepted) => if AboutPool(s, h, name) then Write(h, accepted) else Elsewhere
    case Act(_, _) => Elsewhere
  }

  predicate AboutPool(s: System, h: nat, name: string) {
    h < |s.handlers| && AtItem(s.handlers[h]) && s.handlers[h].progress.items[s.handlers[h].progress.next].name == name
  }

  lemma IndexIs(items: seq<Item>, name: string, i: nat)
    requires i < |items| && items[i].name == name
    requires forall i, j :: 0 <= i < j < |items| ==> items[i].name != items[j].name
    ensures IndexOf(items, name) == i
  {
  }

  /** The projection: every step of the system is, for every plain pool, a step of the
      one-pool system. */
  lemma StepProjects(cfg: Config, s: System, step: Step, name: string)
    requires WellFormed(cfg, s) && Enabled(cfg, s, step) && name in s.cluster && Plain(cfg, name)
    ensures name in Apply(cfg, s, step).cluster
    ensures CanVisit(cfg, ViewOf(cfg, s, name), VisitOf(s, step, name))
    ensures ViewOf(cfg, Apply(cfg, s, step), name) == ApplyVisit(cfg, ViewOf(cfg, s, name), VisitOf(s, step, name))
  {
    StepPlainKeys(cfg, s, step);
    assert name in PlainKeys(cfg, s.cluster);
    var t := Apply(cfg, s, step);
    var w := ViewOf(cfg, s, name);
    match step
    case Arrive(event) =>
      assert ViewOf(cfg, t, name).visitors == ApplyVisit(cfg, w, VisitOf(s, step, name)).visitors;
    case ListPools(h, items) =>
      ListProjects(cfg, s, h, items, name);
    case ListFails(h) =>
      assert ViewOf(cfg, t, name).visitors ==
        w.visitors[h := Visitor(s.handlers[h].kind, s.handlers[h].awayFrom, Over(false))];
    case PassOver(h) =>
      PassProjects(cfg, s, h, name);
    case Send(h, accepted) =>
      PatchProjects(cfg, s, h, accepted, name);
    case Act(h, accepted) =>
      ActProjects(cfg, s, h, accepted, name);
  }

  lemma ListProjects(cfg: Config, s: System, h: nat, items: seq<Item>, name: string)
    requires Enabled(cfg, s, ListPools(h, items)) && name in s.cluster
    ensures ViewOf(cfg, Apply(cfg, s, ListPools(h, items)), name) == At(ViewOf(cfg, s, name), h, Seen(s.cluster[name]))
  {
    var t := Apply(cfg, s, ListPools(h, items));
    assert IndexOf(items, name) < |items|;
    assert ViewOf(cfg, t, name).visitors == At(ViewOf(cfg, s, name), h, Seen(s.cluster[name])).visitors;
  }

  /** Moving on from the item at `next` touches only the visitor of that item's pool. */
  lemma PositionAfter(cfg: Config, cluster: Cluster, h: Handler, g: Handler, name: string)
    requires SnapshotOk(cfg, cluster, h) && AtItem(h) && name in cluster && Plain(cfg, name)
    requires g == h.(progress := h.progress.(next := h.progress.next + 1, patched := false)) ||
      g == h.(progress := h.progress.(patched := true))
    ensures h.progress.items[h.progress.next].name != name ==> PositionOf(cfg, g, name) == PositionOf(cfg, h, name)
    ensures h.progress.items[h.progress.next].name == name ==>
      && PositionOf(cfg, h, name) == (if h.progress.patched then Half(h.progress.items[h.progress.next].pool)
                                      else Seen(h.progress.items[h.progress.next].pool))
      && PositionOf(cfg, g, name) == (if g.progress.patched then Half(h.progress.items[h.progress.next].pool)
                                      else Over(ItemTask(cfg, h).Rewrite?))
  {
    var items := h.progress.items;
    assert IndexOf(items, name) < |items|;
    if items[h.progress.next].name == name {
      IndexIs(items, name, h.progress.next);
    }
  }

  lemma PassProjects(cfg: Config, s: System, h: nat, name: string)
    requires WellFormed(cfg, s) && Enabled(cfg, s, PassOver(h)) && name in s.cluster && Plain(cfg, name)
    ensures CanVisit(cfg, ViewOf(cfg, s, name), VisitOf(s, PassOver(h), name))
    ensures ViewOf(cfg, Apply(cfg, s, PassOver(h)), name) ==
      ApplyVisit(cfg, ViewOf(cfg, s, name), VisitOf(s, PassOver(h), name))
  {
    var t := Apply(cfg, s, PassOver(h));
    PositionAfter(cfg, s.cluster, s.handlers[h], t.handlers[h], name);
    assert ViewOf(cfg, t, name).visitors == ViewOf(cfg, s, name).visitors[h := VisitorOf(cfg, t.handlers[h], name)];
  }

  lemma PatchPool(cfg: Config, s: System, h: nat, accepted: bool, name: string)
    requires Enabled(cfg, s, Send(h, accepted)) && name in s.cluster
    ensures var it := s.handlers[h]; var pool := s.cluster[name];
      && name in Apply(cfg, s, Send(h, accepted)).cluster
      && Apply(cfg, s, Send(h, accepted)).cluster[name] ==
         if !accepted || !AboutPool(s, h, name) then pool
         else if it.progress.patched then pool.(away := Mark(it.kind, it.awayFrom))
         else Accept(pool, ItemTask(cfg, it).patch)
  {
  }

  lemma PatchProjects(cfg: Config, s: System, h: nat, accepted: bool, name: string)
    requires WellFormed(cfg, s) && Enabled(cfg, s, Send(h, accepted)) && name in s.cluster && Plain(cfg, name)
    requires name in Apply(cfg, s, Send(h, accepted)).cluster
    ensures CanVisit(cfg, ViewOf(cfg, s, name), VisitOf(s, Send(h, accepted), name))
    ensures ViewOf(cfg, Apply(cfg, s, Send(h, accepted)), name) ==
      ApplyVisit(cfg, ViewOf(cfg, s, name), VisitOf(s, Send(h, accepted), name))
  {
    var w := ViewOf(cfg, s, name);
    var g := Apply(cfg, s, Send(h, accepted)).handlers[h];
    assert ViewOf(cfg, Apply(cfg, s, Send(h, accepted)), name).visitors == w.visitors[h := VisitorOf(cfg, g, name)];
    PositionAfter(cfg, s.cluster, s.handlers[h], g, name);
    PatchPool(cfg, s, h, accepted, name);
  }

  lemma ActProjects(cfg: Config, s: System, h: nat, accepted: bool, name: string)
    requires WellFormed(cfg, s) && Enabled(cfg, s, Act(h, accepted)) && name in s.cluster && Plain(cfg, name)
    requires name in Apply(cfg, s, Act(h, accepted)).cluster
    ensures ViewOf(cfg, Apply(cfg, s, Act(h, accepted)), name) == ViewOf(cfg, s, name)
  {
    var t := Apply(cfg, s, Act(h, accepted));
    ActElsewhere(cfg, s, h, accepted, name);
    PositionAfter(cfg, s.cluster, s.handlers[h], t.handlers[h], name);
    assert ViewOf(cfg, t, name).visitors == ViewOf(cfg, s, name).visitors[h := VisitorOf(cfg, t.handlers[h], name)];
  }

  /** Creating and deleting copies does not concern plain pools. */
  lemma ActElsewhere(cfg: Config, s: System, h: nat, accepted: bool, name: string)
    requires Enabled(cfg, s, Act(h, accepted)) && name in s.cluster && Plain(cfg, name)
    ensures !AboutPool(s, h, name)
    ensures name in Apply(cfg, s, Act(h, accepted)).cluster
    ensures Apply(cfg, s, Act(h, accepted)).cluster[name] == s.cluster[name]
  {
    CopyNames();
  }
}
