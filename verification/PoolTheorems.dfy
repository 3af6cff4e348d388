/** What every interleaving of event handlers does to the node pools.

    Each theorem is an invariant of the one-pool system of `PoolHandlers`, carried
    to the whole cluster by `StepProjects`. */
module PoolTheorems {
  import opened Sequences
  import opened Pools
  import opened PoolHandlers

  // ----- frame: any events, any overlaps, any refusals -----

  /** `reqs` is `original` with nothing but the values of its first zone requirement
      changed, or with one zone requirement appended where there was none. */
  ghost predicate Framed(original: seq<Requirement>, reqs: seq<Requirement>) {
    reqs == original || reqs == SetZone(original, ZoneValues(reqs))
  }

  /** Beyond that, only the annotation changes, and the disruption settings to their trimmed form. */
  ghost predicate FramedPool(original: Pool, pool: Pool) {
    && Framed(original.requirements, pool.requirements)
    && (pool.disruption == original.disruption || pool.disruption == Trimmed(original.disruption))
    && pool == original.(requirements := pool.requirements, disruption := pool.disruption, away := pool.away)
  }

  ghost predicate FramedView(original: Pool, w: View) {
    && FramedPool(original, w.pool)
    && forall v :: 0 <= v < |w.visitors| ==>
         match w.visitors[v].position
         case Seen(q) => FramedPool(original, q)
         case Half(q) => FramedPool(original, q)
         case _ => true
  }

  lemma FramedSetZone(original: seq<Requirement>, reqs: seq<Requirement>, values: seq<string>)
    requires Framed(original, reqs)
    ensures Framed(original, SetZone(reqs, values))
  {
    SetZoneLaws(original, ZoneValues(reqs), values);
    SetZoneLaws(original, values, values);
  }

  lemma PlanSetsZone(cfg: Config, kind: Kind, awayFrom: string, seen: Pool)
    requires Plan(cfg, kind, awayFrom, seen).Some?
    ensures var reqs := Plan(cfg, kind, awayFrom, seen).value.requirements;
      reqs == SetZone(seen.requirements, ZoneValues(reqs))
  {
    forall v {
      SetZoneLaws(seen.requirements, v, v);
    }
  }

  lemma VisitFramed(cfg: Config, original: Pool, w: View, visit: Visit)
    requires FramedView(original, w) && CanVisit(cfg, w, visit)
    ensures FramedView(original, ApplyVisit(cfg, w, visit))
  {
    if visit.Write? && w.visitors[visit.v].position.Seen? {
      var it := w.visitors[visit.v];
      PlanSetsZone(cfg, it.kind, it.awayFrom, it.position.pool);
      FramedSetZone(original.requirements, it.position.pool.requirements,
                    ZoneValues(VisitorPlan(cfg, it).value.requirements));
      TrimmedLaws(original.disruption);
    }
  }

  lemma {:induction false} RunFramed(cfg: Config, original: Pool, s: System, steps: seq<Step>, name: string)
    requires WellFormed(cfg, s) && ValidRun(cfg, s, steps)
    requires name in s.cluster && Plain(cfg, name) && FramedView(original, ViewOf(cfg, s, name))
    ensures name in Run(cfg, s, steps).cluster && FramedPool(original, Run(cfg, s, steps).cluster[name])
    decreases |steps|
  {
    if steps != [] {
      StepProjects(cfg, s, steps[0], name);
      StepWellFormed(cfg, s, steps[0]);
      VisitFramed(cfg, original, ViewOf(cfg, s, name), VisitOf(s, steps[0], name));
      RunFramed(cfg, original, Apply(cfg, s, steps[0]), steps[1..], name);
    }
  }

  /** The frame of the whole protocol: whatever arrives, overlaps or fails, no plain pool
      appears or disappears and every requirement that is not about zones keeps its
      key, operator, values and place in the order; so do later zone requirements. */
  lemma EveryRunKeepsOtherRequirements(cfg: Config, cluster: Cluster, steps: seq<Step>)
    requires ValidRun(cfg, System(cluster, []), steps)
    ensures var end := Run(cfg, System(cluster, []), steps).cluster;
      && SameNames(cfg, cluster, end) && PlainKeys(cfg, end) == PlainKeys(cfg, cluster)
      && forall n :: n in PlainKeys(cfg, cluster) ==>
           FramedPool(cluster[n], end[n]) && NonZone(end[n].requirements) == NonZone(cluster[n].requirements)
  {
    var s := System(cluster, []);
    var end := Run(cfg, s, steps).cluster;
    RunKeys(cfg, s, steps);
    forall n | n in PlainKeys(cfg, cluster)
      ensures FramedPool(cluster[n], end[n]) && NonZone(end[n].requirements) == NonZone(cluster[n].requirements)
    {
      RunFramed(cfg, cluster[n], s, steps, n);
      SetZoneKeepsNonZone(cluster[n].requirements, ZoneValues(end[n].requirements));
    }
  }

  lemma {:induction false} RunKeys(cfg: Config, s: System, steps: seq<Step>)
    requires WellFormed(cfg, s) && ValidRun(cfg, s, steps)
    ensures WellFormed(cfg, Run(cfg, s, steps))
    ensures PlainKeys(cfg, Run(cfg, s, steps).cluster) == PlainKeys(cfg, s.cluster)
    ensures SameNames(cfg, s.cluster, Run(cfg, s, steps).cluster)
    decreases |steps|
  {
    if steps != [] {
      StepWellFormed(cfg, s, steps[0]);
      StepPlainKeys(cfg, s, steps[0]);
      RunKeys(cfg, Apply(cfg, s, steps[0]), steps[1..]);
    }
  }

  // ----- phases: deliveries of one event -----

  /** A step of a phase in which one event (of `kind`, for `awayFrom`) keeps arriving
      and the cluster accepts every call. */
  predicate Fits(step: Step, kind: Kind, awayFrom: string) {
    match step
    case Arrive(event) => Dispatch(event) == Some(kind) && AwayOf(event) == awayFrom
    case ListFails(_) => false
    case Send(_, accepted) => accepted
    case Act(_, accepted) => accepted
    case _ => true
  }

  /** At least one delivery, any interleaving, until all handlers are done. */
  ghost predicate Phase(cfg: Config, cluster: Cluster, steps: seq<Step>, kind: Kind, awayFrom: string) {
    && ValidRun(cfg, System(cluster, []), steps)
    && (forall i :: 0 <= i < |steps| ==> Fits(steps[i], kind, awayFrom))
    && var end := Run(cfg, System(cluster, []), steps);
       |end.handlers| > 0 && forall h :: 0 <= h < |end.handlers| ==> Done(end.handlers[h])
  }

  // Whatever has happened in a phase, it can be brought to its end.

  lemma {:induction false} CanList(cluster: Cluster) returns (items: seq<Item>)
    ensures Listing(cluster, items)
    decreases |cluster|
  {
    items := [];
    if cluster != map[] {
      var n :| n in cluster;
      items := CanList(cluster - {n});
      OneFirstItem(cluster, n, items);
      items := [Item(n, cluster[n])] + items;
    }
  }

  lemma OneFirstItem(cluster: Cluster, n: string, rest: seq<Item>)
    requires n in cluster && Listing(cluster - {n}, rest)
    ensures Listing(cluster, [Item(n, cluster[n])] + rest)
  {
    var others, items := cluster - {n}, [Item(n, cluster[n])] + rest;
    forall i | 0 <= i < |items|
      ensures items[i].name in cluster && cluster[items[i].name] == items[i].pool
      ensures i > 0 ==> items[i].name in others
    {
      if i > 0 {
        assert items[i] == rest[i - 1];
      }
    }
    forall i, j | 0 <= i < j < |items|
      ensures items[i].name != items[j].name
    {
      if i > 0 {
        assert items[i] == rest[i - 1] && items[j] == rest[j - 1];
      }
    }
    assert items[0].name == n;
    forall m | m in others
      ensures m in Names(items)
    {
      var i :| 0 <= i < |rest| && rest[i].name == m;
      assert items[i + 1].name == m;
    }
  }

  function Left(h: Handler): nat {
    match h.progress
    case Working(items, next, patched) =>
      if next > |items| then 0 else 2 * (|items| - next) + (if patched then 0 else 1)
    case _ => 0
  }

  /** An accepted step of handler `h`. */
  predicate By(step: Step, h: nat) {
    match step
    case ListPools(g, _) => g == h
    case PassOver(g) => g == h
    case Send(g, accepted) => g == h && accepted
    case Act(g, accepted) => g == h && accepted
    case _ => false
  }

  /** A handler that is not done has a step to take. */
  lemma CanMove(cfg: Config, s: System, h: nat) returns (step: Step)
    requires WellFormed(cfg, s) && h < |s.handlers| && !Done(s.handlers[h])
    ensures Enabled(cfg, s, step) && By(step, h)
    ensures var t := Apply(cfg, s, step);
      && |t.handlers| == |s.handlers| && t.handlers == s.handlers[h := t.handlers[h]]
      && t.handlers[h].progress.Working?
      && (s.handlers[h].progress.Working? ==> Left(t.handlers[h]) < Left(s.handlers[h]))
  {
    assert SnapshotOk(cfg, s.cluster, s.handlers[h]);
    if s.handlers[h].progress.Starting? {
      var items := CanList(s.cluster);
      step := ListPools(h, items);
    } else {
      step := match ItemTask(cfg, s.handlers[h])
        case Leave => PassOver(h)
        case Rewrite(_) => Send(h, true)
        case _ => Act(h, true);
    }
  }

  /** What an uninterrupted handler makes of a pool. */
  function Once(cfg: Config, kind: Kind, awayFrom: string, pool: Pool): Pool {
    match kind
    case Update => Updated(cfg, awayFrom, pool)
    case Restore => Restored(cfg, awayFrom, pool)
  }

  /** What visitor `v` will make of the pool if nobody else touches it. */
  function Destined(cfg: Config, w: View, v: nat): Pool
    requires v < |w.visitors|
  {
    var it := w.visitors[v];
    match it.position
    case Idle => Once(cfg, it.kind, it.awayFrom, w.pool)
    case Seen(_) =>
      if VisitorPlan(cfg, it).None? then w.pool
      else Accept(w.pool, VisitorPlan(cfg, it).value).(away := Mark(it.kind, it.awayFrom))
    case Half(_) => w.pool.(away := Mark(it.kind, it.awayFrom))
    case Over(_) => w.pool
  }

  lemma StepDestined(cfg: Config, s: System, h: nat, step: Step, name: string)
    requires WellFormed(cfg, s) && Enabled(cfg, s, step) && By(step, h) && h < |s.handlers|
    requires name in s.cluster && Plain(cfg, name)
    ensures name in Apply(cfg, s, step).cluster && |Apply(cfg, s, step).handlers| == |s.handlers|
    ensures Destined(cfg, ViewOf(cfg, Apply(cfg, s, step), name), h) == Destined(cfg, ViewOf(cfg, s, name), h)
  {
    StepProjects(cfg, s, step, name);
  }

  lemma {:induction false} FinishOne(cfg: Config, s: System, h: nat) returns (steps: seq<Step>)
    requires WellFormed(cfg, s) && h < |s.handlers|
    ensures ValidRun(cfg, s, steps) && forall i :: 0 <= i < |steps| ==> By(steps[i], h)
    ensures var t := Run(cfg, s, steps);
      && WellFormed(cfg, t) && |t.handlers| == |s.handlers|
      && Done(t.handlers[h]) && t.handlers == s.handlers[h := t.handlers[h]]
      && PlainKeys(cfg, t.cluster) == PlainKeys(cfg, s.cluster)
      && forall n :: n in PlainKeys(cfg, s.cluster) ==> t.cluster[n] == Destined(cfg, ViewOf(cfg, s, n), h)
    decreases !s.handlers[h].progress.Working?, Left(s.handlers[h])
  {
    steps := [];
    if Done(s.handlers[h]) {
      forall n | n in PlainKeys(cfg, s.cluster)
        ensures Destined(cfg, ViewOf(cfg, s, n), h) == s.cluster[n]
      {
        OneIsOver(cfg, s, h, n);
      }
    } else {
      var step := CanMove(cfg, s, h);
      StepWellFormed(cfg, s, step);
      forall n | n in PlainKeys(cfg, s.cluster)
        ensures n in PlainKeys(cfg, Apply(cfg, s, step).cluster)
        ensures Destined(cfg, ViewOf(cfg, Apply(cfg, s, step), n), h) == Destined(cfg, ViewOf(cfg, s, n), h)
      {
        StepDestined(cfg, s, h, step, n);
      }
      steps := FinishOne(cfg, Apply(cfg, s, step), h);
      RunOne(cfg, s, step, steps);
      steps := [step] + steps;
    }
  }

  lemma {:induction false} FinishAll(cfg: Config, s: System, from: nat, kind: Kind, awayFrom: string)
    returns (steps: seq<Step>)
    requires WellFormed(cfg, s) && from <= |s.handlers|
    requires forall h :: 0 <= h < from ==> Done(s.handlers[h])
    ensures ValidRun(cfg, s, steps) && forall i :: 0 <= i < |steps| ==> Fits(steps[i], kind, awayFrom)
    ensures var t := Run(cfg, s, steps);
      |t.handlers| == |s.handlers| && forall h :: 0 <= h < |t.handlers| ==> Done(t.handlers[h])
    decreases |s.handlers| - from
  {
    steps := [];
    if from < |s.handlers| {
      var first := FinishOne(cfg, s, from);
      var rest := FinishAll(cfg, Run(cfg, s, first), from + 1, kind, awayFrom);
      RunAppend(cfg, s, first, rest);
      steps := first + rest;
    }
  }

  /** Handlers never block each other: however far the deliveries of an event have got, in
      whatever interleaving, there is a way on that ends with every handler done. */
  lemma EveryPhaseCanEnd(cfg: Config, cluster: Cluster, steps: seq<Step>, kind: Kind, awayFrom: string)
    requires ValidRun(cfg, System(cluster, []), steps)
    requires forall i :: 0 <= i < |steps| ==> Fits(steps[i], kind, awayFrom)
    requires Run(cfg, System(cluster, []), steps).handlers != []
    ensures exists more :: Phase(cfg, cluster, steps + more, kind, awayFrom)
  {
    RunKeys(cfg, System(cluster, []), steps);
    var more := FinishAll(cfg, Run(cfg, System(cluster, []), steps), 0, kind, awayFrom);
    RunAppend(cfg, System(cluster, []), steps, more);
    assert Phase(cfg, cluster, steps + more, kind, awayFrom);
  }

  /** One more delivery of the event, handled without interruption, treats every plain
      pool as the handlers' loops do. */
  lemma DeliverOnce(cfg: Config, s: System, event: Event) returns (steps: seq<Step>)
    requires WellFormed(cfg, s) && Dispatch(event).Some? && forall h :: 0 <= h < |s.handlers| ==> Done(s.handlers[h])
    ensures ValidRun(cfg, s, steps)
    ensures forall i :: 0 <= i < |steps| ==> Fits(steps[i], Dispatch(event).value, AwayOf(event))
    ensures var t := Run(cfg, s, steps);
      && WellFormed(cfg, t) && |t.handlers| == |s.handlers| + 1
      && (forall h :: 0 <= h < |t.handlers| ==> Done(t.handlers[h]))
      && PlainKeys(cfg, t.cluster) == PlainKeys(cfg, s.cluster)
      && forall n :: n in PlainKeys(cfg, s.cluster) ==>
           t.cluster[n] == Once(cfg, Dispatch(event).value, AwayOf(event), s.cluster[n])
  {
    var s1 := Apply(cfg, s, Arrive(event));
    StepWellFormed(cfg, s, Arrive(event));
    var rest := FinishOne(cfg, s1, |s.handlers|);
    RunOne(cfg, s, Arrive(event), rest);
    steps := [Arrive(event)] + rest;
  }

  /** Two deliveries of an event, one after the other. */
  lemma DeliverTwice(cfg: Config, cluster: Cluster, event: Event) returns (steps: seq<Step>)
    requires Dispatch(event).Some?
    ensures Phase(cfg, cluster, steps, Dispatch(event).value, AwayOf(event))
    ensures var end := Run(cfg, System(cluster, []), steps).cluster;
      && PlainKeys(cfg, end) == PlainKeys(cfg, cluster)
      && forall n :: n in PlainKeys(cfg, cluster) ==>
           var once := Once(cfg, Dispatch(event).value, AwayOf(event), cluster[n]);
           end[n] == Once(cfg, Dispatch(event).value, AwayOf(event), once)
  {
    var s := System(cluster, []);
    var first := DeliverOnce(cfg, s, event);
    var second := DeliverOnce(cfg, Run(cfg, s, first), event);
    RunAppend(cfg, s, first, second);
    steps := first + second;
  }

  predicate FitsVisit(visit: Visit, kind: Kind, awayFrom: string) {
    match visit
    case Join(k, a) => k == kind && a == awayFrom
    case Fail(_) => false
    case Write(_, accepted) => accepted
    case _ => true
  }

  ghost predicate AllOver(w: View) {
    |w.visitors| > 0 && forall v :: 0 <= v < |w.visitors| ==> w.visitors[v].position.Over?
  }

  lemma DoneIsOver(cfg: Config, s: System, name: string)
    requires WellFormed(cfg, s) && name in s.cluster && Plain(cfg, name) && |s.handlers| > 0
    requires forall h :: 0 <= h < |s.handlers| ==> Done(s.handlers[h])
    ensures AllOver(ViewOf(cfg, s, name))
  {
    forall h | 0 <= h < |s.handlers|
      ensures PositionOf(cfg, s.handlers[h], name).Over?
    {
      OneIsOver(cfg, s, h, name);
    }
  }

  lemma OneIsOver(cfg: Config, s: System, h: nat, name: string)
    requires WellFormed(cfg, s) && name in s.cluster && Plain(cfg, name) && h < |s.handlers| && Done(s.handlers[h])
    ensures PositionOf(cfg, s.handlers[h], name).Over?
  {
    assert SnapshotOk(cfg, s.cluster, s.handlers[h]);
  }

  // ----- concurrent duplicates of a shift -----

  ghost predicate SomeHalf(w: View) {
    exists v :: 0 <= v < |w.visitors| && w.visitors[v].position.Half?
  }

  /** A visitor that has nothing to change. */
  predicate Untouched(original: Pool, position: Position) {
    position == Idle || position == Seen(original) || position == Over(false)
  }

  lemma StillHalf(cfg: Config, w: View, visit: Visit)
    requires CanVisit(cfg, w, visit) && (visit.Write? ==> w.visitors[visit.v].position.Seen?)
    ensures SomeHalf(w) ==> SomeHalf(ApplyVisit(cfg, w, visit))
  {
    if SomeHalf(w) {
      var v :| 0 <= v < |w.visitors| && w.visitors[v].position.Half?;
      assert ApplyVisit(cfg, w, visit).visitors[v].position.Half?;
    }
  }

  /** The same pool but for the annotation. */
  predicate SameSpec(p: Pool, q: Pool) {
    p == q.(away := p.away)
  }

  /** Some update has been written: `pool` is, annotation apart, as one or two updates leave it. */
  predicate Moved(cfg: Config, awayFrom: string, original: Pool, pool: Pool) {
    || SameSpec(pool, Updated(cfg, awayFrom, original))
    || SameSpec(pool, Updated(cfg, awayFrom, Updated(cfg, awayFrom, original)))
  }

  predicate ShiftPosition(cfg: Config, awayFrom: string, original: Pool, moved: bool, position: Position) {
    match position
    case Idle => true
    case Seen(q) => SameSpec(q, original) || (Moved(cfg, awayFrom, original, q) && moved)
    case Half(_) => moved
    case Over(_) => moved
  }

  ghost predicate Shifting(cfg: Config, awayFrom: string, original: Pool, w: View) {
    && (forall v :: 0 <= v < |w.visitors| ==> w.visitors[v].kind == Update && w.visitors[v].awayFrom == awayFrom)
    && if UpdateRequirements(cfg, awayFrom, original.requirements).None? then
         && w.pool == original
         && forall v :: 0 <= v < |w.visitors| ==> Untouched(original, w.visitors[v].position)
       else
         var moved := Moved(cfg, awayFrom, original, w.pool);
         && (moved || SameSpec(w.pool, original))
         && (moved && w.pool.away != Some(awayFrom) ==> SomeHalf(w))
         && forall v :: 0 <= v < |w.visitors| ==> ShiftPosition(cfg, awayFrom, original, moved, w.visitors[v].position)
  }

  /** The patch of a handler that saw the pool before, between or after the updates. */
  lemma UpdatesSettle(cfg: Config, awayFrom: string, original: Pool, seen: Pool, current: Pool)
    requires UpdateRequirements(cfg, awayFrom, original.requirements).Some?
    requires SameSpec(seen, original) || Moved(cfg, awayFrom, original, seen)
    requires SameSpec(current, original) || Moved(cfg, awayFrom, original, current)
    ensures var patch := UpdatePatch(cfg, awayFrom, seen);
      && (SameSpec(seen, original) ==> patch.Some?)
      && (patch.Some? ==> Moved(cfg, awayFrom, original, Accept(current, patch.value)))
  {
    var name, zones, reqs := ZoneName(cfg, awayFrom), UpdatedZones(cfg, awayFrom), original.requirements;
    var first := if HasZone(reqs) then Without(ZoneValues(reqs), name) else zones;
    TrimmedLaws(original.disruption);
    SetZoneLaws(reqs, first, Without(first, name));
    SetZoneLaws(reqs, Without(first, name), []);
  }

  lemma QuietShifting(cfg: Config, awayFrom: string, original: Pool, w: View, visit: Visit)
    requires Shifting(cfg, awayFrom, original, w) && UpdateRequirements(cfg, awayFrom, original.requirements).Some?
    requires CanVisit(cfg, w, visit) && FitsVisit(visit, Update, awayFrom) && !visit.Write?
    ensures Shifting(cfg, awayFrom, original, ApplyVisit(cfg, w, visit))
  {
    StillHalf(cfg, w, visit);
    var x := ApplyVisit(cfg, w, visit);
    var moved := Moved(cfg, awayFrom, original, w.pool);
    forall v | 0 <= v < |x.visitors|
      ensures ShiftPosition(cfg, awayFrom, original, moved, x.visitors[v].position)
    {
      if v < |w.visitors| {
        assert ShiftPosition(cfg, awayFrom, original, moved, w.visitors[v].position);
        if visit == Pass(v) {
          UpdatesSettle(cfg, awayFrom, original, w.visitors[v].position.pool, w.pool);
        }
      }
    }
  }

  lemma WriteShifting(cfg: Config, awayFrom: string, original: Pool, w: View, v: nat)
    requires Shifting(cfg, awayFrom, original, w) && UpdateRequirements(cfg, awayFrom, original.requirements).Some?
    requires CanVisit(cfg, w, Write(v, true))
    ensures Shifting(cfg, awayFrom, original, ApplyVisit(cfg, w, Write(v, true)))
  {
    var x := ApplyVisit(cfg, w, Write(v, true));
    var moved := Moved(cfg, awayFrom, original, w.pool);
    assert ShiftPosition(cfg, awayFrom, original, moved, w.visitors[v].position);
    if w.visitors[v].position.Seen? {
      UpdatesSettle(cfg, awayFrom, original, w.visitors[v].position.pool, w.pool);
      assert x.visitors[v].position.Half?;
    }
    assert Moved(cfg, awayFrom, original, x.pool);
    forall u | 0 <= u < |x.visitors|
      ensures ShiftPosition(cfg, awayFrom, original, true, x.visitors[u].position)
    {
      assert ShiftPosition(cfg, awayFrom, original, moved, w.visitors[u].position);
    }
  }

  lemma VisitShifting(cfg: Config, awayFrom: string, original: Pool, w: View, visit: Visit)
    requires Shifting(cfg, awayFrom, original, w)
    requires CanVisit(cfg, w, visit) && FitsVisit(visit, Update, awayFrom)
    ensures Shifting(cfg, awayFrom, original, ApplyVisit(cfg, w, visit))
  {
    if UpdateRequirements(cfg, awayFrom, original.requirements).Some? {
      if visit.Write? {
        WriteShifting(cfg, awayFrom, original, w, visit.v);
      } else {
        QuietShifting(cfg, awayFrom, original, w, visit);
      }
    }
  }

  lemma {:induction false} RunShifting(cfg: Config, awayFrom: string, original: Pool, s: System, steps: seq<Step>,
                                       name: string)
    requires WellFormed(cfg, s) && ValidRun(cfg, s, steps)
    requires forall i :: 0 <= i < |steps| ==> Fits(steps[i], Update, awayFrom)
    requires name in s.cluster && Plain(cfg, name) && Shifting(cfg, awayFrom, original, ViewOf(cfg, s, name))
    ensures name in Run(cfg, s, steps).cluster
    ensures Shifting(cfg, awayFrom, original, ViewOf(cfg, Run(cfg, s, steps), name))
    decreases |steps|
  {
    if steps != [] {
      StepProjects(cfg, s, steps[0], name);
      StepWellFormed(cfg, s, steps[0]);
      VisitShifting(cfg, awayFrom, original, ViewOf(cfg, s, name), VisitOf(s, steps[0], name));
      RunShifting(cfg, awayFrom, original, Apply(cfg, s, steps[0]), steps[1..], name);
    }
  }

  lemma EndOfShifts(cfg: Config, awayFrom: string, original: Pool, w: View)
    requires Shifting(cfg, awayFrom, original, w) && AllOver(w)
    ensures ShiftedTo(cfg, awayFrom, original, w.pool)
  {
    assert w.visitors[0].position.Over?;
    assert !SomeHalf(w);
    UpdateIdempotentIff(cfg, awayFrom, original);
  }

  /** Any number of handlers for the same in-progress event, interleaved in any way,
      leave every plain pool exactly as one uninterrupted update would, or as two would
      in the one case where a second update still has something to change. */
  lemma DuplicateShifts(cfg: Config, cluster: Cluster, steps: seq<Step>, awayFrom: string)
    requires Phase(cfg, cluster, steps, Update, awayFrom)
    ensures var end := Run(cfg, System(cluster, []), steps).cluster;
      && SameNames(cfg, cluster, end) && PlainKeys(cfg, end) == PlainKeys(cfg, cluster)
      && forall n :: n in PlainKeys(cfg, cluster) ==> ShiftedTo(cfg, awayFrom, cluster[n], end[n])
  {
    RunKeys(cfg, System(cluster, []), steps);
    forall n | n in PlainKeys(cfg, cluster)
      ensures ShiftedTo(cfg, awayFrom, cluster[n], Run(cfg, System(cluster, []), steps).cluster[n])
    {
      ShiftsOfOne(cfg, cluster, steps, awayFrom, n);
    }
  }

  lemma ShiftsOfOne(cfg: Config, cluster: Cluster, steps: seq<Step>, awayFrom: string, n: string)
    requires Phase(cfg, cluster, steps, Update, awayFrom) && n in PlainKeys(cfg, cluster)
    ensures var end := Run(cfg, System(cluster, []), steps).cluster;
      n in end && ShiftedTo(cfg, awayFrom, cluster[n], end[n])
  {
    var s := System(cluster, []);
    var end := Run(cfg, s, steps);
    RunKeys(cfg, s, steps);
    RunShifting(cfg, awayFrom, cluster[n], s, steps, n);
    DoneIsOver(cfg, end, n);
    EndOfShifts(cfg, awayFrom, cluster[n], ViewOf(cfg, end, n));
  }

  /** Exactly when duplicates of an in-progress event cannot be told from a single
      delivery on the pool called `n`, whatever other pools the cluster has. */
  lemma DuplicateShiftsIff(cfg: Config, cluster: Cluster, event: Event, n: string)
    requires Dispatch(event) == Some(Update) && n in PlainKeys(cfg, cluster)
    ensures (forall steps :: Phase(cfg, cluster, steps, Update, AwayOf(event)) ==>
               var end := Run(cfg, System(cluster, []), steps).cluster;
               n in end && end[n] == Updated(cfg, AwayOf(event), cluster[n]))
      <==> Steady(cfg, AwayOf(event), cluster[n])
  {
    if Steady(cfg, AwayOf(event), cluster[n]) {
      forall steps | Phase(cfg, cluster, steps, Update, AwayOf(event))
        ensures var end := Run(cfg, System(cluster, []), steps).cluster;
          n in end && end[n] == Updated(cfg, AwayOf(event), cluster[n])
      {
        DuplicateShifts(cfg, cluster, steps, AwayOf(event));
        assert n in PlainKeys(cfg, Run(cfg, System(cluster, []), steps).cluster);
      }
    } else {
      var steps := DeliverTwice(cfg, cluster, event);
      UpdateIdempotentIff(cfg, AwayOf(event), cluster[n]);
      assert Phase(cfg, cluster, steps, Update, AwayOf(event));
    }
  }

  lemma RunOne(cfg: Config, s: System, step: Step, rest: seq<Step>)
    requires Enabled(cfg, s, step) && ValidRun(cfg, Apply(cfg, s, step), rest)
    ensures ValidRun(cfg, s, [step] + rest) && Run(cfg, s, [step] + rest) == Run(cfg, Apply(cfg, s, step), rest)
  {
    assert ([step] + rest)[1..] == rest;
  }

  lemma {:induction false} RunAppend(cfg: Config, s: System, a: seq<Step>, b: seq<Step>)
    requires ValidRun(cfg, s, a) && ValidRun(cfg, Run(cfg, s, a), b)
    ensures ValidRun(cfg, s, a + b) && Run(cfg, s, a + b) == Run(cfg, Run(cfg, s, a), b)
    decreases |a|
  {
    if a == [] {
      assert a + b == b;
    } else {
      assert (a + b)[1..] == a[1..] + b;
      RunAppend(cfg, Apply(cfg, s, a[0]), a[1..], b);
    }
  }

  // ----- concurrent duplicates of a restore -----

  predicate Wrote(v: Visitor) {
    v.position.Half? || (v.position.Over? && v.position.patched)
  }

  /** How many visitors have sent their spec patch. */
  function Tally(w: View): nat {
    Count(w.visitors, Wrote)
  }

  ghost predicate Added(original: Pool, name: string, reqs: seq<Requirement>, least: nat, most: nat) {
    exists times :: least <= times <= most &&
      reqs == SetZone(original.requirements, ZoneValues(original.requirements) + Repeat(name, times))
  }

  ghost predicate RestorePosition(original: Pool, name: string, tally: nat, position: Position) {
    match position
    case Idle => true
    case Seen(q) =>
      && HasZone(q.requirements) && Added(original, name, q.requirements, 0, tally)
      && (q.away == original.away || tally > 0)
    case Half(q) => q.away.Some? && HasZone(q.requirements)
    case Over(_) => tally > 0
  }

  ghost predicate Restoring(cfg: Config, awayFrom: string, original: Pool, w: View) {
    && (forall v :: 0 <= v < |w.visitors| ==> w.visitors[v].kind == Restore && w.visitors[v].awayFrom == awayFrom)
    && if RestoreRequirements(cfg, awayFrom, original).None? then
         && w.pool == original
         && forall v :: 0 <= v < |w.visitors| ==> Untouched(original, w.visitors[v].position)
       else
         && w.pool == original.(requirements := w.pool.requirements, away := w.pool.away)
         && HasZone(w.pool.requirements)
         && Added(original, RestoreName(cfg, awayFrom), w.pool.requirements, if Tally(w) > 0 then 1 else 0, Tally(w))
         && (w.pool.away == original.away || (w.pool.away == None && Tally(w) > 0))
         && (Tally(w) > 0 && !SomeHalf(w) ==> w.pool.away == None)
         && forall v :: 0 <= v < |w.visitors| ==>
           RestorePosition(original, RestoreName(cfg, awayFrom), Tally(w), w.visitors[v].position)
  }

  /** One more restore on top of `times` earlier ones. */
  lemma AddOnce(cfg: Config, awayFrom: string, original: Pool, q: Pool, most: nat)
    requires HasZone(original.requirements) && q.away.Some? && HasZone(q.requirements)
    requires Added(original, RestoreName(cfg, awayFrom), q.requirements, 0, most)
    ensures RestoreRequirements(cfg, awayFrom, q).Some? && HasZone(RestoreRequirements(cfg, awayFrom, q).value)
    ensures Added(original, RestoreName(cfg, awayFrom), RestoreRequirements(cfg, awayFrom, q).value, 1, most + 1)
  {
    var name := RestoreName(cfg, awayFrom);
    var times :| 0 <= times <= most &&
      q.requirements == SetZone(original.requirements, ZoneValues(original.requirements) + Repeat(name, times));
    var before, after := ZoneValues(original.requirements) + Repeat(name, times),
      ZoneValues(original.requirements) + Repeat(name, times + 1);
    SetZoneLaws(original.requirements, before, after);
    SetZoneLaws(q.requirements, after, []);
    assert before + [name] == after;
  }

  lemma AddedNothing(original: Pool, name: string, most: nat)
    requires HasZone(original.requirements)
    ensures Added(original, name, original.requirements, 0, most)
  {
    SetZoneLaws(original.requirements, [], []);
    var times: nat := 0;
    assert ZoneValues(original.requirements) + Repeat(name, times) == ZoneValues(original.requirements);
  }

  lemma AddedMore(original: Pool, name: string, reqs: seq<Requirement>, least: nat, most: nat, least': nat, most': nat)
    requires Added(original, name, reqs, least, most) && least' <= least && most <= most'
    ensures Added(original, name, reqs, least', most')
  {
  }

  lemma VisitTally(cfg: Config, w: View, visit: Visit)
    requires CanVisit(cfg, w, visit)
    ensures var writes := visit.Write? && w.visitors[visit.v].position.Seen?;
      Tally(ApplyVisit(cfg, w, visit)) == Tally(w) + (if writes then 1 else 0)
  {
    var x := ApplyVisit(cfg, w, visit);
    match visit
    case Join(kind, awayFrom) => CountAppend(w.visitors, Visitor(kind, awayFrom, Idle), Wrote);
    case Elsewhere =>
    case Look(v) => CountUpdate(w.visitors, v, x.visitors[v], Wrote);
    case Fail(v) => CountUpdate(w.visitors, v, x.visitors[v], Wrote);
    case Pass(v) => CountUpdate(w.visitors, v, x.visitors[v], Wrote);
    case Write(v, _) => CountUpdate(w.visitors, v, x.visitors[v], Wrote);
  }

  lemma VisitRestoring(cfg: Config, awayFrom: string, original: Pool, w: View, visit: Visit)
    requires Restoring(cfg, awayFrom, original, w)
    requires CanVisit(cfg, w, visit) && FitsVisit(visit, Restore, awayFrom)
    ensures Restoring(cfg, awayFrom, original, ApplyVisit(cfg, w, visit))
  {
    if RestoreRequirements(cfg, awayFrom, original).Some? {
      VisitTally(cfg, w, visit);
      if visit.Write? {
        WriteRestoring(cfg, awayFrom, original, w, visit.v);
      } else {
        QuietRestoring(cfg, awayFrom, original, w, visit);
      }
    }
  }

  lemma QuietRestoring(cfg: Config, awayFrom: string, original: Pool, w: View, visit: Visit)
    requires Restoring(cfg, awayFrom, original, w) && RestoreRequirements(cfg, awayFrom, original).Some?
    requires CanVisit(cfg, w, visit) && FitsVisit(visit, Restore, awayFrom) && !visit.Write?
    requires Tally(ApplyVisit(cfg, w, visit)) == Tally(w)
    ensures Restoring(cfg, awayFrom, original, ApplyVisit(cfg, w, visit))
  {
    var x := ApplyVisit(cfg, w, visit);
    var name := RestoreName(cfg, awayFrom);
    AddedMore(original, name, w.pool.requirements, if Tally(w) > 0 then 1 else 0, Tally(w), 0, Tally(w));
    StillHalf(cfg, w, visit);
    forall v | 0 <= v < |x.visitors|
      ensures RestorePosition(original, name, Tally(x), x.visitors[v].position)
    {
      if v < |w.visitors| {
        assert RestorePosition(original, name, Tally(w), w.visitors[v].position);
      }
    }
  }

  lemma WriteRestoring(cfg: Config, awayFrom: string, original: Pool, w: View, v: nat)
    requires Restoring(cfg, awayFrom, original, w) && RestoreRequirements(cfg, awayFrom, original).Some?
    requires CanVisit(cfg, w, Write(v, true))
    requires Tally(ApplyVisit(cfg, w, Write(v, true))) == Tally(w) + (if w.visitors[v].position.Seen? then 1 else 0)
    ensures Restoring(cfg, awayFrom, original, ApplyVisit(cfg, w, Write(v, true)))
  {
    var x := ApplyVisit(cfg, w, Write(v, true));
    var name := RestoreName(cfg, awayFrom);
    assert RestorePosition(original, name, Tally(w), w.visitors[v].position);
    if w.visitors[v].position.Seen? {
      AddOnce(cfg, awayFrom, original, w.visitors[v].position.pool, Tally(w));
      assert x.visitors[v].position.Half?;
    } else {
      CountZero(w.visitors, Wrote);
    }
    forall u | 0 <= u < |x.visitors|
      ensures RestorePosition(original, name, Tally(x), x.visitors[u].position)
    {
      assert RestorePosition(original, name, Tally(w), w.visitors[u].position);
      if u != v && w.visitors[u].position.Seen? {
        AddedMore(original, name, w.visitors[u].position.pool.requirements, 0, Tally(w), 0, Tally(x));
      }
    }
  }

  lemma {:induction false} RunRestoring(cfg: Config, awayFrom: string, original: Pool, s: System, steps: seq<Step>,
                                        name: string)
    requires WellFormed(cfg, s) && ValidRun(cfg, s, steps)
    requires forall i :: 0 <= i < |steps| ==> Fits(steps[i], Restore, awayFrom)
    requires name in s.cluster && Plain(cfg, name) && Restoring(cfg, awayFrom, original, ViewOf(cfg, s, name))
    ensures name in Run(cfg, s, steps).cluster
    ensures Restoring(cfg, awayFrom, original, ViewOf(cfg, Run(cfg, s, steps), name))
    decreases |steps|
  {
    if steps != [] {
      StepProjects(cfg, s, steps[0], name);
      StepWellFormed(cfg, s, steps[0]);
      VisitRestoring(cfg, awayFrom, original, ViewOf(cfg, s, name), VisitOf(s, steps[0], name));
      RunRestoring(cfg, awayFrom, original, Apply(cfg, s, steps[0]), steps[1..], name);
    }
  }

  /** Any interleaving of k handlers for the same terminal event: an annotated plain pool
      with a zone requirement ends without the annotation and with the zone appended
      at least once and at most k times; any other plain pool is untouched. */
  lemma DuplicateRestores(cfg: Config, cluster: Cluster, steps: seq<Step>, awayFrom: string)
    requires Phase(cfg, cluster, steps, Restore, awayFrom)
    ensures var end := Run(cfg, System(cluster, []), steps);
      && SameNames(cfg, cluster, end.cluster) && PlainKeys(cfg, end.cluster) == PlainKeys(cfg, cluster)
      && forall n :: n in PlainKeys(cfg, cluster) ==>
        RestoredBy(cfg, awayFrom, cluster[n], end.cluster[n], |end.handlers|)
  {
    var s := System(cluster, []);
    RunKeys(cfg, s, steps);
    forall n | n in PlainKeys(cfg, cluster)
      ensures RestoredBy(cfg, awayFrom, cluster[n], Run(cfg, s, steps).cluster[n], |Run(cfg, s, steps).handlers|)
    {
      if RestoreRequirements(cfg, awayFrom, cluster[n]).Some? {
        AddedNothing(cluster[n], RestoreName(cfg, awayFrom), 0);
      }
      RunRestoring(cfg, awayFrom, cluster[n], s, steps, n);
      DoneIsOver(cfg, Run(cfg, s, steps), n);
      EndOfRestores(cfg, awayFrom, cluster[n], ViewOf(cfg, Run(cfg, s, steps), n));
    }
  }

  lemma EndOfRestores(cfg: Config, awayFrom: string, original: Pool, w: View)
    requires Restoring(cfg, awayFrom, original, w) && AllOver(w)
    ensures RestoredBy(cfg, awayFrom, original, w.pool, |w.visitors|)
  {
    var name := RestoreName(cfg, awayFrom);
    assert w.visitors[0].position.Over?;
    assert !SomeHalf(w);
    if RestoreRequirements(cfg, awayFrom, original).Some? {
      assert RestorePosition(original, name, Tally(w), w.visitors[0].position);
      var times :| 1 <= times <= Tally(w) &&
        w.pool.requirements == SetZone(original.requirements, ZoneValues(original.requirements) + Repeat(name, times));
    }
  }

  /** However often it was repeated, a restore admits what one restore admits. */
  lemma RestoredAdmitsAsOnce(cfg: Config, awayFrom: string, pool: Pool, restored: Pool, most: nat)
    requires RestoredBy(cfg, awayFrom, pool, restored, most)
    ensures forall z :: Admits(restored.requirements, z) <==> Admits(Restored(cfg, awayFrom, pool).requirements, z)
  {
    if pool.away.Some? && HasZone(pool.requirements) {
      var name, values := RestoreName(cfg, awayFrom), ZoneValues(pool.requirements);
      var times :| 1 <= times <= most &&
        restored == pool.(requirements := SetZone(pool.requirements, values + Repeat(name, times)), away := None);
      assert forall z :: z in values + Repeat(name, times) <==> z in values + [name];
      forall z
        ensures Admits(restored.requirements, z) <==> Admits(Restored(cfg, awayFrom, pool).requirements, z)
      {
        AdmitsSetZone(pool.requirements, values + Repeat(name, times), z);
        AdmitsSetZone(pool.requirements, values + [name], z);
      }
    }
  }
}
