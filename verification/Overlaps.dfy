/** Runs in which in-progress and terminal handlers overlap freely, with any patch and
    any list call refused: nothing in the controller waits for a handler to end.

    What becomes of a pool is decided by the last spec patch and the last annotation
    patch that the cluster accepted. */
module Overlaps {
  import opened Sequences
  import opened Pools
  import opened PoolHandlers
  import opened PoolTheorems

  // ----- zones that no event is about -----

  /** No arriving event is about zone `z`, under its name or as a raw ID. */
  predicate Spares(cfg: Config, step: Step, z: string) {
    step.Arrive? ==> z != ZoneName(cfg, AwayOf(step.event)) && z != RestoreName(cfg, AwayOf(step.event))
  }

  /** The requirements say about `z` what the pool said at first, or list it as one of
      the cluster's zones where there was no zone requirement. */
  ghost predicate SameOn(cfg: Config, original: Pool, z: string, reqs: seq<Requirement>) {
    || reqs == original.requirements
    || (&& reqs == SetZone(original.requirements, ZoneValues(reqs))
        && (z in ZoneValues(reqs) <==>
              if HasZone(original.requirements) then z in ZoneValues(original.requirements) else z in cfg.clusterZones))
  }

  ghost predicate SparedView(cfg: Config, original: Pool, z: string, w: View) {
    && SameOn(cfg, original, z, w.pool.requirements)
    && forall v :: 0 <= v < |w.visitors| ==> SparedVisitor(cfg, original, z, w.visitors[v])
  }

  ghost predicate SparedVisitor(cfg: Config, original: Pool, z: string, it: Visitor) {
    && z != ZoneName(cfg, it.awayFrom) && z != RestoreName(cfg, it.awayFrom)
    && match it.position
       case Seen(q) => SameOn(cfg, original, z, q.requirements)
       case Half(q) => SameOn(cfg, original, z, q.requirements)
       case _ => true
  }

  lemma SparedPlan(cfg: Config, original: Pool, z: string, kind: Kind, awayFrom: string, seen: Pool)
    requires SameOn(cfg, original, z, seen.requirements) && Plan(cfg, kind, awayFrom, seen).Some?
    requires z != ZoneName(cfg, awayFrom) && z != RestoreName(cfg, awayFrom)
    ensures SameOn(cfg, original, z, Plan(cfg, kind, awayFrom, seen).value.requirements)
  {
    var reqs := Plan(cfg, kind, awayFrom, seen).value.requirements;
    var values := ZoneValues(reqs);
    PlanSetsZone(cfg, kind, awayFrom, seen);
    SetZoneLaws(seen.requirements, ZoneValues(seen.requirements) + [RestoreName(cfg, awayFrom)], []);
    SetZoneLaws(seen.requirements, Without(ZoneValues(seen.requirements), ZoneName(cfg, awayFrom)), []);
    SetZoneLaws(seen.requirements, UpdatedZones(cfg, awayFrom), []);
    SetZoneLaws(original.requirements, ZoneValues(seen.requirements), values);
    SetZoneLaws(original.requirements, values, []);
  }

  lemma VisitSpared(cfg: Config, original: Pool, z: string, w: View, visit: Visit)
    requires SparedView(cfg, original, z, w) && CanVisit(cfg, w, visit)
    requires visit.Join? ==> z != ZoneName(cfg, visit.awayFrom) && z != RestoreName(cfg, visit.awayFrom)
    ensures SparedView(cfg, original, z, ApplyVisit(cfg, w, visit))
  {
    var x := ApplyVisit(cfg, w, visit);
    if visit.Write? && w.visitors[visit.v].position.Seen? {
      var it := w.visitors[visit.v];
      SparedPlan(cfg, original, z, it.kind, it.awayFrom, it.position.pool);
    }
    forall v | 0 <= v < |x.visitors|
      ensures SparedVisitor(cfg, original, z, x.visitors[v])
    {
      assert v < |w.visitors| ==> SparedVisitor(cfg, original, z, w.visitors[v]);
    }
  }

  lemma {:induction false} RunSpared(cfg: Config, original: Pool, z: string, s: System, steps: seq<Step>, n: string)
    requires WellFormed(cfg, s) && ValidRun(cfg, s, steps)
    requires n in s.cluster && Plain(cfg, n) && SparedView(cfg, original, z, ViewOf(cfg, s, n))
    requires forall i :: 0 <= i < |steps| ==> Spares(cfg, steps[i], z)
    ensures n in Run(cfg, s, steps).cluster
    ensures SameOn(cfg, original, z, Run(cfg, s, steps).cluster[n].requirements)
    decreases |steps|
  {
    if steps != [] {
      assert Spares(cfg, steps[0], z);
      StepProjects(cfg, s, steps[0], n);
      StepWellFormed(cfg, s, steps[0]);
      VisitSpared(cfg, original, z, ViewOf(cfg, s, n), VisitOf(s, steps[0], n));
      RunSpared(cfg, original, z, Apply(cfg, s, steps[0]), steps[1..], n);
    }
  }

  lemma SameOnAdmits(cfg: Config, original: Pool, z: string, reqs: seq<Requirement>)
    requires SameOn(cfg, original, z, reqs) && (HasZone(original.requirements) || z in cfg.clusterZones)
    ensures Admits(reqs, z) <==> Admits(original.requirements, z)
  {
    AdmitsSetZone(original.requirements, ZoneValues(reqs), z);
    if HasZone(original.requirements) {
      AdmitsSplit(original.requirements, z);
    }
  }

  /** The frame for zones: whatever arrives, overlaps or fails, a zone that no event is
      about is admitted by every plain pool at the end exactly if it was at the start.
      For a pool without zone requirement that is said of the cluster's zones. */
  lemma EveryRunKeepsOtherZones(cfg: Config, cluster: Cluster, steps: seq<Step>, z: string)
    requires ValidRun(cfg, System(cluster, []), steps)
    requires forall i :: 0 <= i < |steps| ==> Spares(cfg, steps[i], z)
    ensures var end := Run(cfg, System(cluster, []), steps).cluster;
      forall n :: n in PlainKeys(cfg, cluster) && (HasZone(cluster[n].requirements) || z in cfg.clusterZones) ==>
        n in end && (Admits(end[n].requirements, z) <==> Admits(cluster[n].requirements, z))
  {
    var s := System(cluster, []);
    forall n | n in PlainKeys(cfg, cluster) && (HasZone(cluster[n].requirements) || z in cfg.clusterZones)
      ensures var end := Run(cfg, s, steps).cluster;
        n in end && (Admits(end[n].requirements, z) <==> Admits(cluster[n].requirements, z))
    {
      RunSpared(cfg, cluster[n], z, s, steps, n);
      SameOnAdmits(cfg, cluster[n], z, Run(cfg, s, steps).cluster[n].requirements);
    }
  }

  // ----- the last patches accepted -----

  /** A spec patch: by which kind of handler, and made from which sight of the pool. */
  datatype Sent = Sent(kind: Kind, seen: Pool)

  /** The cluster accepts a patch of the pool called `n`. */
  predicate Accepted(s: System, step: Step, n: string) {
    step.Send? && step.accepted && AboutPool(s, step.h, n)
  }

  /** The last spec patch of pool `n` that a run has accepted; `last` if it accepts none. */
  ghost function LastSpec(cfg: Config, s: System, steps: seq<Step>, n: string, last: Option<Sent>): Option<Sent>
    requires ValidRun(cfg, s, steps)
    decreases |steps|
  {
    if steps == [] then last
    else LastSpec(cfg, Apply(cfg, s, steps[0]), steps[1..], n, NextSpec(s, steps[0], n, last))
  }

  function NextSpec(s: System, step: Step, n: string, last: Option<Sent>): Option<Sent> {
    if !Accepted(s, step, n) then last
    else
      var it := s.handlers[step.h];
      if it.progress.patched then last else Some(Sent(it.kind, it.progress.items[it.progress.next].pool))
  }

  /** The same for annotation patches, of which the kind of handler says everything. */
  ghost function LastMark(cfg: Config, s: System, steps: seq<Step>, n: string, last: Option<Kind>): Option<Kind>
    requires ValidRun(cfg, s, steps)
    decreases |steps|
  {
    if steps == [] then last
    else LastMark(cfg, Apply(cfg, s, steps[0]), steps[1..], n, NextMark(s, steps[0], n, last))
  }

  function NextMark(s: System, step: Step, n: string, last: Option<Kind>): Option<Kind> {
    if Accepted(s, step, n) && s.handlers[step.h].progress.patched then Some(s.handlers[step.h].kind) else last
  }

  /** The patch leaves the away zone unlisted: an update, unless it adds the requirement
      to a pool without one and has nowhere else to go. */
  predicate Unlists(cfg: Config, awayFrom: string, sent: Sent) {
    sent.kind == Update && (HasZone(sent.seen.requirements) || ZoneName(cfg, awayFrom) !in UpdatedZones(cfg, awayFrom))
  }

  /** What the last patches make of a pool. */
  ghost predicate Decided(cfg: Config, awayFrom: string, original: Pool, now: Pool, spec: Option<Sent>,
                          mark: Option<Kind>) {
    && (match spec
        case None => now.requirements == original.requirements
        case Some(sent) =>
          && HasZone(now.requirements)
          && (HasZone(original.requirements) ==> HasZone(sent.seen.requirements))
          && (ZoneName(cfg, awayFrom) in ZoneValues(now.requirements) <==> !Unlists(cfg, awayFrom, sent)))
    && now.away == (match mark case None => original.away case Some(kind) => Mark(kind, awayFrom))
  }

  /** Every event of the run is about the zone with ID `awayFrom`. */
  predicate About(step: Step, awayFrom: string) {
    step.Arrive? ==> AwayOf(step.event) == awayFrom
  }

  ghost predicate DecidedView(cfg: Config, awayFrom: string, original: Pool, w: View, spec: Option<Sent>,
                              mark: Option<Kind>) {
    && Decided(cfg, awayFrom, original, w.pool, spec, mark)
    && FramedView(original, w)
    && forall v :: 0 <= v < |w.visitors| ==> w.visitors[v].awayFrom == awayFrom
  }

  /** A patch of either kind: what it says about the zone. */
  lemma PlanDecides(cfg: Config, awayFrom: string, kind: Kind, seen: Pool)
    requires ZoneName(cfg, awayFrom) != "" && Plan(cfg, kind, awayFrom, seen).Some?
    ensures var reqs := Plan(cfg, kind, awayFrom, seen).value.requirements;
      HasZone(reqs) && (ZoneName(cfg, awayFrom) in ZoneValues(reqs) <==> !Unlists(cfg, awayFrom, Sent(kind, seen)))
  {
    SetZoneLaws(seen.requirements, ZoneValues(seen.requirements) + [RestoreName(cfg, awayFrom)], []);
    SetZoneLaws(seen.requirements, Without(ZoneValues(seen.requirements), ZoneName(cfg, awayFrom)), []);
    SetZoneLaws(seen.requirements, UpdatedZones(cfg, awayFrom), []);
  }

  lemma FramedKeepsZone(original: Pool, pool: Pool)
    requires FramedPool(original, pool) && HasZone(original.requirements)
    ensures HasZone(pool.requirements)
  {
    SetZoneLaws(original.requirements, ZoneValues(pool.requirements), []);
  }

  lemma StepDecided(cfg: Config, awayFrom: string, original: Pool, s: System, step: Step, n: string,
                    spec: Option<Sent>, mark: Option<Kind>)
    requires ZoneName(cfg, awayFrom) != "" && WellFormed(cfg, s) && Enabled(cfg, s, step) && About(step, awayFrom)
    requires n in s.cluster && Plain(cfg, n)
    requires DecidedView(cfg, awayFrom, original, ViewOf(cfg, s, n), spec, mark)
    ensures n in Apply(cfg, s, step).cluster
    ensures DecidedView(cfg, awayFrom, original, ViewOf(cfg, Apply(cfg, s, step), n),
                        NextSpec(s, step, n, spec), NextMark(s, step, n, mark))
  {
    var w, visit := ViewOf(cfg, s, n), VisitOf(s, step, n);
    StepProjects(cfg, s, step, n);
    VisitFramed(cfg, original, w, visit);
    VisitorsStay(cfg, awayFrom, w, visit);
    if Accepted(s, step, n) {
      SendDecided(cfg, awayFrom, original, s, step.h, n, spec, mark);
    } else {
      assert !(visit.Write? && visit.accepted);
    }
  }

  /** Who is about the zone stays about it, and only an accepted patch changes the pool. */
  lemma VisitorsStay(cfg: Config, awayFrom: string, w: View, visit: Visit)
    requires CanVisit(cfg, w, visit) && (visit.Join? ==> visit.awayFrom == awayFrom)
    requires forall v :: 0 <= v < |w.visitors| ==> w.visitors[v].awayFrom == awayFrom
    ensures var x := ApplyVisit(cfg, w, visit);
      && (forall v :: 0 <= v < |x.visitors| ==> x.visitors[v].awayFrom == awayFrom)
      && (!(visit.Write? && visit.accepted) ==> x.pool == w.pool)
  {
  }

  /** An accepted patch decides what it is about and leaves the rest decided as it was. */
  lemma SendDecided(cfg: Config, awayFrom: string, original: Pool, s: System, h: nat, n: string,
                    spec: Option<Sent>, mark: Option<Kind>)
    requires ZoneName(cfg, awayFrom) != "" && WellFormed(cfg, s) && Enabled(cfg, s, Send(h, true)) && AboutPool(s, h, n)
    requires n in s.cluster && Plain(cfg, n)
    requires DecidedView(cfg, awayFrom, original, ViewOf(cfg, s, n), spec, mark)
    ensures var now := ApplyVisit(cfg, ViewOf(cfg, s, n), Write(h, true)).pool;
      Decided(cfg, awayFrom, original, now, NextSpec(s, Send(h, true), n, spec), NextMark(s, Send(h, true), n, mark))
  {
    var w := ViewOf(cfg, s, n);
    var it := s.handlers[h];
    var seen := it.progress.items[it.progress.next].pool;
    PositionAfter(cfg, s.cluster, it, it.(progress := it.progress.(patched := true)), n);
    assert w.visitors[h].position == if it.progress.patched then Half(seen) else Seen(seen);
    if !it.progress.patched {
      PlanDecides(cfg, awayFrom, it.kind, seen);
      if HasZone(original.requirements) {
        FramedKeepsZone(original, seen);
      }
    }
  }

  lemma {:induction false} RunDecided(cfg: Config, awayFrom: string, original: Pool, s: System, steps: seq<Step>,
                                      n: string, spec: Option<Sent>, mark: Option<Kind>)
    requires ZoneName(cfg, awayFrom) != "" && WellFormed(cfg, s) && ValidRun(cfg, s, steps)
    requires forall i :: 0 <= i < |steps| ==> About(steps[i], awayFrom)
    requires n in s.cluster && Plain(cfg, n)
    requires DecidedView(cfg, awayFrom, original, ViewOf(cfg, s, n), spec, mark)
    ensures n in Run(cfg, s, steps).cluster
    ensures Decided(cfg, awayFrom, original, Run(cfg, s, steps).cluster[n],
                    LastSpec(cfg, s, steps, n, spec), LastMark(cfg, s, steps, n, mark))
    decreases |steps|
  {
    if steps != [] {
      assert About(steps[0], awayFrom);
      StepDecided(cfg, awayFrom, original, s, steps[0], n, spec, mark);
      StepWellFormed(cfg, s, steps[0]);
      RunDecided(cfg, awayFrom, original, Apply(cfg, s, steps[0]), steps[1..], n,
                 NextSpec(s, steps[0], n, spec), NextMark(s, steps[0], n, mark));
    }
  }

  /** A run about one zone starts with nobody at work. */
  lemma OneZoneRun(cfg: Config, cluster: Cluster, steps: seq<Step>, awayFrom: string, n: string)
    requires ZoneName(cfg, awayFrom) != "" && n in PlainKeys(cfg, cluster) && ValidRun(cfg, System(cluster, []), steps)
    requires forall i :: 0 <= i < |steps| ==> About(steps[i], awayFrom)
    ensures var s := System(cluster, []);
      var end := Run(cfg, s, steps).cluster;
      && n in end
      && Decided(cfg, awayFrom, cluster[n], end[n], LastSpec(cfg, s, steps, n, None), LastMark(cfg, s, steps, n, None))
      && forall z :: z != ZoneName(cfg, awayFrom) ==> SameOn(cfg, cluster[n], z, end[n].requirements)
  {
    var s := System(cluster, []);
    RunDecided(cfg, awayFrom, cluster[n], s, steps, n, None, None);
    forall z | z != ZoneName(cfg, awayFrom)
      ensures SameOn(cfg, cluster[n], z, Run(cfg, s, steps).cluster[n].requirements)
    {
      forall i | 0 <= i < |steps|
        ensures Spares(cfg, steps[i], z)
      {
        assert About(steps[i], awayFrom);
      }
      RunSpared(cfg, cluster[n], z, s, steps, n);
    }
  }

  /** What any run about one known zone comes to, whatever overlaps or fails: the pool
      lists or admits what it did at first exactly as the last spec patch accepted has
      it, and the annotation is as the last annotation patch accepted has it. */
  lemma LastPatchesDecideIff(cfg: Config, cluster: Cluster, steps: seq<Step>, awayFrom: string, n: string)
    requires ZoneName(cfg, awayFrom) != "" && n in PlainKeys(cfg, cluster) && ValidRun(cfg, System(cluster, []), steps)
    requires forall i :: 0 <= i < |steps| ==> About(steps[i], awayFrom)
    ensures var s, name, pool := System(cluster, []), ZoneName(cfg, awayFrom), cluster[n];
      var spec, mark := LastSpec(cfg, s, steps, n, None), LastMark(cfg, s, steps, n, None);
      var end := Run(cfg, s, steps).cluster;
      && n in end
      && end[n].away == (match mark case None => pool.away case Some(kind) => Mark(kind, awayFrom))
      && (HasZone(pool.requirements) ==>
            (SameSet(ZoneValues(end[n].requirements), ZoneValues(pool.requirements)) <==>
             spec.None? || (name in ZoneValues(pool.requirements) <==> !Unlists(cfg, awayFrom, spec.value))))
      && (!HasZone(pool.requirements) ==>
            (SameAdmitted(cfg, pool, end[n]) <==>
             spec.None? || name !in cfg.clusterZones || !Unlists(cfg, awayFrom, spec.value)))
  {
    var s, name, pool := System(cluster, []), ZoneName(cfg, awayFrom), cluster[n];
    OneZoneRun(cfg, cluster, steps, awayFrom, n);
    DecidedIff(cfg, awayFrom, pool, Run(cfg, s, steps).cluster[n],
               LastSpec(cfg, s, steps, n, None), LastMark(cfg, s, steps, n, None));
  }

  lemma DecidedIff(cfg: Config, awayFrom: string, pool: Pool, now: Pool, spec: Option<Sent>, mark: Option<Kind>)
    requires Decided(cfg, awayFrom, pool, now, spec, mark)
    requires forall z :: z != ZoneName(cfg, awayFrom) ==> SameOn(cfg, pool, z, now.requirements)
    ensures HasZone(pool.requirements) ==>
      (SameSet(ZoneValues(now.requirements), ZoneValues(pool.requirements)) <==>
       (|| spec.None?
        || (ZoneName(cfg, awayFrom) in ZoneValues(pool.requirements) <==> !Unlists(cfg, awayFrom, spec.value))))
    ensures !HasZone(pool.requirements) ==>
      (SameAdmitted(cfg, pool, now) <==>
       spec.None? || ZoneName(cfg, awayFrom) !in cfg.clusterZones || !Unlists(cfg, awayFrom, spec.value))
  {
    var name, values := ZoneName(cfg, awayFrom), ZoneValues(now.requirements);
    if HasZone(pool.requirements) {
      forall z | z != name
        ensures z in values <==> z in ZoneValues(pool.requirements)
      {
        assert SameOn(cfg, pool, z, now.requirements);
      }
    } else if spec.Some? {
      assert SameOn(cfg, pool, name + "'", now.requirements);
      forall z | z in cfg.clusterZones
        ensures Admits(now.requirements, z) <==> z != name || z in values
        ensures Admits(pool.requirements, z)
      {
        AdmitsSetZone(pool.requirements, values, z);
        assert z != name ==> SameOn(cfg, pool, z, now.requirements);
      }
    }
  }

  /** Unless the away zone is among the zones to go to, it is the updates that leave it
      unlisted. */
  lemma UpdatesUnlist(cfg: Config, awayFrom: string, pool: Pool, now: Pool, spec: Option<Sent>, mark: Option<Kind>)
    requires Decided(cfg, awayFrom, pool, now, spec, mark) && Steady(cfg, awayFrom, pool) && spec.Some?
    ensures Unlists(cfg, awayFrom, spec.value) <==> spec.value.kind == Update
  {
  }

  /** A settled pool that lists the away zone: exactly when the zone list is back, and
      exactly when the pool is settled again. */
  lemma OverlapRecoversIff(cfg: Config, cluster: Cluster, steps: seq<Step>, awayFrom: string, n: string)
    requires ZoneName(cfg, awayFrom) != "" && n in PlainKeys(cfg, cluster) && ValidRun(cfg, System(cluster, []), steps)
    requires forall i :: 0 <= i < |steps| ==> About(steps[i], awayFrom)
    requires Settled(cluster[n]) && HasZone(cluster[n].requirements)
    requires ZoneName(cfg, awayFrom) in ZoneValues(cluster[n].requirements)
    ensures var s := System(cluster, []);
      var spec, mark := LastSpec(cfg, s, steps, n, None), LastMark(cfg, s, steps, n, None);
      var end := Run(cfg, s, steps).cluster;
      && n in end
      && (SameSet(ZoneValues(end[n].requirements), ZoneValues(cluster[n].requirements)) <==>
          !(spec.Some? && spec.value.kind == Update))
      && (Settled(end[n]) <==> mark != Some(Update))
  {
    var s := System(cluster, []);
    var spec, mark := LastSpec(cfg, s, steps, n, None), LastMark(cfg, s, steps, n, None);
    OneZoneRun(cfg, cluster, steps, awayFrom, n);
    LastPatchesDecideIff(cfg, cluster, steps, awayFrom, n);
    if spec.Some? {
      UpdatesUnlist(cfg, awayFrom, cluster[n], Run(cfg, s, steps).cluster[n], spec, mark);
    }
  }

  // ----- zones lost for good -----

  /** If `more` is a run about the zone, it leaves the zone unlisted in the pool called `n`. */
  ghost predicate StaysUnlisted(cfg: Config, cluster: Cluster, awayFrom: string, n: string, more: seq<Step>) {
    ValidRun(cfg, System(cluster, []), more) && (forall i :: 0 <= i < |more| ==> About(more[i], awayFrom)) ==>
      var later := Run(cfg, System(cluster, []), more).cluster;
      n in later && ZoneName(cfg, awayFrom) !in ZoneValues(later[n].requirements)
  }

  /** The zone is not coming back, whatever still arrives about it. */
  ghost predicate LostForGood(cfg: Config, cluster: Cluster, awayFrom: string, n: string) {
    forall more :: StaysUnlisted(cfg, cluster, awayFrom, n, more)
  }

  /** No handler about the zone finds anything to do about the pool. */
  ghost predicate Ignored(awayFrom: string, pool: Pool, w: View) {
    && w.pool == pool
    && forall v :: 0 <= v < |w.visitors| ==>
         w.visitors[v].awayFrom == awayFrom && Untouched(pool, w.visitors[v].position)
  }

  lemma VisitIgnored(cfg: Config, awayFrom: string, pool: Pool, w: View, visit: Visit)
    requires Ignored(awayFrom, pool, w) && CanVisit(cfg, w, visit) && (visit.Join? ==> visit.awayFrom == awayFrom)
    requires Settled(pool) && HasZone(pool.requirements) && ZoneName(cfg, awayFrom) !in ZoneValues(pool.requirements)
    ensures Ignored(awayFrom, pool, ApplyVisit(cfg, w, visit))
  {
    VisitorsStay(cfg, awayFrom, w, visit);
  }

  lemma {:induction false} RunIgnored(cfg: Config, awayFrom: string, pool: Pool, s: System, steps: seq<Step>, n: string)
    requires WellFormed(cfg, s) && ValidRun(cfg, s, steps) && forall i :: 0 <= i < |steps| ==> About(steps[i], awayFrom)
    requires n in s.cluster && Plain(cfg, n) && Ignored(awayFrom, pool, ViewOf(cfg, s, n))
    requires Settled(pool) && HasZone(pool.requirements) && ZoneName(cfg, awayFrom) !in ZoneValues(pool.requirements)
    ensures n in Run(cfg, s, steps).cluster && Run(cfg, s, steps).cluster[n] == pool
    decreases |steps|
  {
    if steps != [] {
      assert About(steps[0], awayFrom);
      StepProjects(cfg, s, steps[0], n);
      StepWellFormed(cfg, s, steps[0]);
      VisitIgnored(cfg, awayFrom, pool, ViewOf(cfg, s, n), VisitOf(s, steps[0], n));
      RunIgnored(cfg, awayFrom, pool, Apply(cfg, s, steps[0]), steps[1..], n);
    }
  }

  /** A pool that does not list the zone and bears no mark is ignored for ever; any other
      gets the zone back, or keeps it, by the next restore. */
  lemma UnmarkedIsLostIff(cfg: Config, cluster: Cluster, awayFrom: string, n: string)
    requires ZoneName(cfg, awayFrom) != "" && n in PlainKeys(cfg, cluster) && HasZone(cluster[n].requirements)
    ensures LostForGood(cfg, cluster, awayFrom, n) <==>
      Settled(cluster[n]) && ZoneName(cfg, awayFrom) !in ZoneValues(cluster[n].requirements)
  {
    var s, pool := System(cluster, []), cluster[n];
    if Settled(pool) && ZoneName(cfg, awayFrom) !in ZoneValues(pool.requirements) {
      forall more
        ensures StaysUnlisted(cfg, cluster, awayFrom, n, more)
      {
        if ValidRun(cfg, s, more) && forall i :: 0 <= i < |more| ==> About(more[i], awayFrom) {
          RunIgnored(cfg, awayFrom, pool, s, more, n);
        }
      }
    } else {
      var event := Event("Autoshift Completed", awayFrom, "");
      var more := DeliverOnce(cfg, s, event);
      SetZoneLaws(pool.requirements, ZoneValues(pool.requirements) + [RestoreName(cfg, awayFrom)], []);
      forall i | 0 <= i < |more|
        ensures About(more[i], awayFrom)
      {
        assert Fits(more[i], Restore, awayFrom);
      }
      assert ZoneName(cfg, awayFrom) in ZoneValues(Restored(cfg, awayFrom, pool).requirements);
      assert !StaysUnlisted(cfg, cluster, awayFrom, n, more);
    }
  }

  /** Exactly when a run loses the zone of a settled pool that lists it for good: the last
      spec patch accepted is an update's and the last annotation patch is not. */
  lemma LosesForGoodIff(cfg: Config, cluster: Cluster, steps: seq<Step>, awayFrom: string, n: string)
    requires ZoneName(cfg, awayFrom) != "" && n in PlainKeys(cfg, cluster) && ValidRun(cfg, System(cluster, []), steps)
    requires forall i :: 0 <= i < |steps| ==> About(steps[i], awayFrom)
    requires Settled(cluster[n]) && HasZone(cluster[n].requirements)
    requires ZoneName(cfg, awayFrom) in ZoneValues(cluster[n].requirements)
    ensures var s := System(cluster, []);
      var spec, mark := LastSpec(cfg, s, steps, n, None), LastMark(cfg, s, steps, n, None);
      LostForGood(cfg, Run(cfg, s, steps).cluster, awayFrom, n) <==>
      spec.Some? && spec.value.kind == Update && mark != Some(Update)
  {
    var s := System(cluster, []);
    var end := Run(cfg, s, steps).cluster;
    RunKeys(cfg, s, steps);
    OneZoneRun(cfg, cluster, steps, awayFrom, n);
    OverlapRecoversIff(cfg, cluster, steps, awayFrom, n);
    assert HasZone(end[n].requirements);
    UnmarkedIsLostIff(cfg, end, awayFrom, n);
    var spec := LastSpec(cfg, s, steps, n, None);
    if spec.Some? {
      UpdatesUnlist(cfg, awayFrom, cluster[n], end[n], spec, LastMark(cfg, s, steps, n, None));
    }
  }

  // ----- such a run exists -----

  lemma RunFour(cfg: Config, s: System, a: Step, b: Step, c: Step, d: Step)
    requires Enabled(cfg, s, a) && Enabled(cfg, Apply(cfg, s, a), b)
    requires var s2 := Apply(cfg, Apply(cfg, s, a), b); Enabled(cfg, s2, c) && Enabled(cfg, Apply(cfg, s2, c), d)
    ensures ValidRun(cfg, s, [a, b, c, d])
    ensures Run(cfg, s, [a, b, c, d]) == Apply(cfg, Apply(cfg, Apply(cfg, Apply(cfg, s, a), b), c), d)
  {
    var s3 := Apply(cfg, Apply(cfg, Apply(cfg, s, a), b), c);
    RunOne(cfg, s3, d, []);
    RunOne(cfg, Apply(cfg, Apply(cfg, s, a), b), c, [d] + []);
    RunOne(cfg, Apply(cfg, s, a), b, [c] + ([d] + []));
    RunOne(cfg, s, a, [b] + ([c] + ([d] + [])));
    assert [a, b, c, d] == [a] + ([b] + ([c] + ([d] + [])));
  }

  /** The only pool, listed. */
  lemma SoloList(cfg: Config, s: System, h: nat, n: string, pool: Pool)
    requires h < |s.handlers| && s.handlers[h].progress.Starting? && s.cluster == map[n := pool]
    ensures Enabled(cfg, s, ListPools(h, [Item(n, pool)]))
    ensures Apply(cfg, s, ListPools(h, [Item(n, pool)])) == Move(s, h, Working([Item(n, pool)], 0, false))
  {
    assert [Item(n, pool)][0].name == n;
  }

  /** A patch of the only pool, accepted. */
  lemma SoloSend(cfg: Config, s: System, h: nat, n: string, seen: Pool, now: Pool, patched: bool)
    requires h < |s.handlers| && s.handlers[h].progress == Working([Item(n, seen)], 0, patched) && Plain(cfg, n)
    requires s.cluster == map[n := now] && Plan(cfg, s.handlers[h].kind, s.handlers[h].awayFrom, seen).Some?
    ensures Enabled(cfg, s, Send(h, true))
    ensures var it := s.handlers[h];
      var next := if patched then now.(away := Mark(it.kind, it.awayFrom))
                  else Accept(now, Plan(cfg, it.kind, it.awayFrom, seen).value);
      var progress := if patched then Working([Item(n, seen)], 1, false) else Working([Item(n, seen)], 0, true);
      Apply(cfg, s, Send(h, true)) == Move(s.(cluster := map[n := next]), h, progress)
  {
  }

  /** The run is about the zone, and the cluster accepts every call. */
  predicate Smooth(step: Step, awayFrom: string) {
    About(step, awayFrom) && !step.ListFails? && (step.Send? ==> step.accepted)
  }

  function AtWork(kind: Kind, awayFrom: string, n: string, seen: Pool): Handler {
    Handler(kind, awayFrom, Working([Item(n, seen)], 0, false))
  }

  function Finished(kind: Kind, awayFrom: string, n: string, seen: Pool): Handler {
    Handler(kind, awayFrom, Working([Item(n, seen)], 1, false))
  }

  lemma TwoHandlersSee(cfg: Config, n: string, pool: Pool, start: Event) returns (steps: seq<Step>)
    requires Dispatch(start) == Some(Update)
    ensures forall i :: 0 <= i < |steps| ==> Smooth(steps[i], AwayOf(start))
    ensures var s, h := System(map[n := pool], []), AtWork(Update, AwayOf(start), n, pool);
      ValidRun(cfg, s, steps) && Run(cfg, s, steps) == System(map[n := pool], [h, h])
  {
    var s := System(map[n := pool], []);
    var s2 := Apply(cfg, Apply(cfg, s, Arrive(start)), Arrive(start));
    SoloList(cfg, s2, 0, n, pool);
    var s3 := Apply(cfg, s2, ListPools(0, [Item(n, pool)]));
    SoloList(cfg, s3, 1, n, pool);
    RunFour(cfg, s, Arrive(start), Arrive(start), ListPools(0, [Item(n, pool)]), ListPools(1, [Item(n, pool)]));
    steps := [Arrive(start), Arrive(start), ListPools(0, [Item(n, pool)]), ListPools(1, [Item(n, pool)])];
  }

  lemma OneHandlerUpdates(cfg: Config, n: string, pool: Pool, awayFrom: string, finish: Event)
    returns (steps: seq<Step>)
    requires Dispatch(finish) == Some(Restore) && AwayOf(finish) == awayFrom && Plain(cfg, n)
    requires Plan(cfg, Update, awayFrom, pool).Some?
    ensures forall i :: 0 <= i < |steps| ==> Smooth(steps[i], awayFrom)
    ensures var shifted, late := Updated(cfg, awayFrom, pool), AtWork(Update, awayFrom, n, pool);
      var s := System(map[n := pool], [late, late]);
      && ValidRun(cfg, s, steps)
      && Run(cfg, s, steps) ==
         System(map[n := shifted], [Finished(Update, awayFrom, n, pool), late, AtWork(Restore, awayFrom, n, shifted)])
  {
    var shifted, late := Updated(cfg, awayFrom, pool), AtWork(Update, awayFrom, n, pool);
    var s := System(map[n := pool], [late, late]);
    SoloSend(cfg, s, 0, n, pool, pool, false);
    var s1 := Apply(cfg, s, Send(0, true));
    SoloSend(cfg, s1, 0, n, pool, Accept(pool, Plan(cfg, Update, awayFrom, pool).value), true);
    var s2 := Apply(cfg, s1, Send(0, true));
    assert s2.cluster == map[n := shifted];
    var s3 := Apply(cfg, s2, Arrive(finish));
    SoloList(cfg, s3, 2, n, shifted);
    RunFour(cfg, s, Send(0, true), Send(0, true), Arrive(finish), ListPools(2, [Item(n, shifted)]));
    steps := [Send(0, true), Send(0, true), Arrive(finish), ListPools(2, [Item(n, shifted)])];
  }

  lemma LateHandlerCrosses(cfg: Config, n: string, pool: Pool, awayFrom: string) returns (steps: seq<Step>)
    requires Plain(cfg, n) && HasZone(pool.requirements) && Plan(cfg, Update, awayFrom, pool).Some?
    ensures forall i :: 0 <= i < |steps| ==> Smooth(steps[i], awayFrom)
    ensures var shifted := Updated(cfg, awayFrom, pool);
      var s := System(map[n := shifted], [Finished(Update, awayFrom, n, pool), AtWork(Update, awayFrom, n, pool),
                                          AtWork(Restore, awayFrom, n, shifted)]);
      && ValidRun(cfg, s, steps)
      && Run(cfg, s, steps) ==
         System(map[n := shifted.(away := None)],
                [Finished(Update, awayFrom, n, pool), Finished(Update, awayFrom, n, pool),
                 Finished(Restore, awayFrom, n, shifted)])
  {
    var shifted := Updated(cfg, awayFrom, pool);
    var s := System(map[n := shifted], [Finished(Update, awayFrom, n, pool), AtWork(Update, awayFrom, n, pool),
                                        AtWork(Restore, awayFrom, n, shifted)]);
    AfterOneUpdate(cfg, awayFrom, pool);
    var p1 := Accept(shifted, Plan(cfg, Restore, awayFrom, shifted).value);
    var p2 := Accept(p1, Plan(cfg, Update, awayFrom, pool).value);
    assert p2 == shifted;
    SoloSend(cfg, s, 2, n, shifted, shifted, false);
    var s1 := Apply(cfg, s, Send(2, true));
    SoloSend(cfg, s1, 1, n, pool, p1, false);
    var s2 := Apply(cfg, s1, Send(1, true));
    SoloSend(cfg, s2, 1, n, pool, p2, true);
    var s3 := Apply(cfg, s2, Send(1, true));
    SoloSend(cfg, s3, 2, n, shifted, shifted, true);
    RunFour(cfg, s, Send(2, true), Send(1, true), Send(1, true), Send(2, true));
    steps := [Send(2, true), Send(1, true), Send(1, true), Send(2, true)];
  }

  /** An event delivered twice, and its end: the second update handler sends its patches
      between the two of the restore. */
  lemma LateUpdateRuns(cfg: Config, n: string, pool: Pool, start: Event, finish: Event) returns (steps: seq<Step>)
    requires Dispatch(start) == Some(Update) && Dispatch(finish) == Some(Restore) && AwayOf(start) == AwayOf(finish)
    requires Plain(cfg, n) && HasZone(pool.requirements) && Plan(cfg, Update, AwayOf(start), pool).Some?
    ensures forall i :: 0 <= i < |steps| ==> Smooth(steps[i], AwayOf(start))
    ensures var s, away, shifted := System(map[n := pool], []), AwayOf(start), Updated(cfg, AwayOf(start), pool);
      && ValidRun(cfg, s, steps)
      && Run(cfg, s, steps) ==
         System(map[n := shifted.(away := None)],
                [Finished(Update, away, n, pool), Finished(Update, away, n, pool), Finished(Restore, away, n, shifted)])
  {
    var away := AwayOf(start);
    var shifted, late := Updated(cfg, away, pool), AtWork(Update, away, n, pool);
    var sees := TwoHandlersSee(cfg, n, pool, start);
    var updates := OneHandlerUpdates(cfg, n, pool, away, finish);
    var crosses := LateHandlerCrosses(cfg, n, pool, away);
    RunAppend(cfg, System(map[n := pool], [late, late]), updates, crosses);
    RunAppend(cfg, System(map[n := pool], []), sees, updates + crosses);
    steps := sees + (updates + crosses);
  }

  /** Every settled pool that lists a known zone can lose it for good to an update that
      comes late, with every call accepted and every handler done. */
  lemma LateUpdateLosesZone(cfg: Config, n: string, pool: Pool, start: Event, finish: Event)
    returns (steps: seq<Step>, end: System)
    requires Dispatch(start) == Some(Update) && Dispatch(finish) == Some(Restore) && AwayOf(start) == AwayOf(finish)
    requires Plain(cfg, n) && Settled(pool) && HasZone(pool.requirements) && cfg.clusterZones != []
    requires ZoneName(cfg, AwayOf(start)) != "" && ZoneName(cfg, AwayOf(start)) in ZoneValues(pool.requirements)
    ensures forall i :: 0 <= i < |steps| ==> Smooth(steps[i], AwayOf(start))
    ensures ValidRun(cfg, System(map[n := pool], []), steps) && end == Run(cfg, System(map[n := pool], []), steps)
    ensures forall h :: 0 <= h < |end.handlers| ==> Done(end.handlers[h])
    ensures LostForGood(cfg, end.cluster, AwayOf(start), n)
  {
    UpdatedZonesKeepAwayIff(cfg, AwayOf(start));
    steps := LateUpdateRuns(cfg, n, pool, start, finish);
    end := Run(cfg, System(map[n := pool], []), steps);
    ShiftedUnmarked(cfg, n, pool, AwayOf(start), end.cluster);
  }

  /** A pool that was updated and bears no mark of it. */
  lemma ShiftedUnmarked(cfg: Config, n: string, pool: Pool, awayFrom: string, cluster: Cluster)
    requires Plain(cfg, n) && HasZone(pool.requirements) && cfg.clusterZones != [] && ZoneName(cfg, awayFrom) != ""
    requires n in cluster && cluster[n] == Updated(cfg, awayFrom, pool).(away := None)
    ensures LostForGood(cfg, cluster, awayFrom, n)
  {
    AfterOneUpdate(cfg, awayFrom, pool);
    UnmarkedIsLostIff(cfg, cluster, awayFrom, n);
  }
}
