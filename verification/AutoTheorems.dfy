/** Auto mode under every interleaving: what happens to the built-in pools and to
    their copies.  All other pools are covered by `PoolTheorems`. */
module AutoTheorems {
  import opened Sequences
  import opened Pools
  import opened AutoMode
  import opened PoolHandlers
  import opened PoolTheorems

  // ----- a phase of updates -----

  /** `pool` is the copy called `n`, fresh or once updated in place. */
  ghost predicate CopyOk(cfg: Config, awayFrom: string, before: Cluster, n: string, pool: Pool) {
    IsCopyName(n) && OriginalName(n) in before &&
    var copy := Copy(cfg, awayFrom, OriginalName(n), before[OriginalName(n)]);
    pool == copy || pool == Updated(cfg, awayFrom, copy)
  }

  ghost predicate SpecialOk(cfg: Config, awayFrom: string, before: Cluster, n: string, pool: Pool) {
    && (BuiltIn(n) ==> n in before && pool == before[n])
    && (IsCopyName(n) ==> CopyOk(cfg, awayFrom, before, n, pool))
  }

  ghost predicate HandlerShifting(cfg: Config, awayFrom: string, before: Cluster, cluster: Cluster, h: Handler) {
    && h.kind == Update && h.awayFrom == awayFrom && !h.progress.Stopped?
    && (h.progress.Working? ==>
          && (forall i :: 0 <= i < |h.progress.items| ==>
              SpecialOk(cfg, awayFrom, before, h.progress.items[i].name, h.progress.items[i].pool))
          && (forall n :: n in before && BuiltIn(n) ==> IndexOf(h.progress.items, n) < |h.progress.items|)
          && (forall i :: 0 <= i < h.progress.next && i < |h.progress.items| && BuiltIn(h.progress.items[i].name) ==>
                CopyName(h.progress.items[i].name) in cluster))
  }

  ghost predicate AutoShifting(cfg: Config, awayFrom: string, before: Cluster, s: System) {
    && (forall n :: n in s.cluster ==> SpecialOk(cfg, awayFrom, before, n, s.cluster[n]))
    && (forall n :: n in before && BuiltIn(n) ==> n in s.cluster)
    && (forall h :: 0 <= h < |s.handlers| ==> HandlerShifting(cfg, awayFrom, before, s.cluster, s.handlers[h]))
  }

  /** An update of a copy, as fresh or as already updated, writes the updated copy. */
  lemma RewriteCopy(cfg: Config, awayFrom: string, before: Cluster, n: string, seen: Pool, current: Pool)
    requires CopyOk(cfg, awayFrom, before, n, seen) && CopyOk(cfg, awayFrom, before, n, current)
    requires UpdatePatch(cfg, awayFrom, seen).Some?
    ensures CopyOk(cfg, awayFrom, before, n, Accept(current, UpdatePatch(cfg, awayFrom, seen).value))
    ensures CopyOk(cfg, awayFrom, before, n, current.(away := Some(awayFrom)))
  {
    var copy := Copy(cfg, awayFrom, OriginalName(n), before[OriginalName(n)]);
    FreshCopyShadows(cfg, awayFrom, OriginalName(n), before[OriginalName(n)]);
    UpdateIdempotentIff(cfg, awayFrom, copy);
    if UpdateRequirements(cfg, awayFrom, copy.requirements).Some? {
      UpdatesSettle(cfg, awayFrom, copy, seen, current);
    }
  }

  /** A step changes the cluster, if at all, within what the update phase allows. */
  lemma ShiftStepCluster(cfg: Config, awayFrom: string, before: Cluster, s: System, step: Step)
    requires cfg.isAutoMode && UpdatedZones(cfg, awayFrom) != []
    requires AutoShifting(cfg, awayFrom, before, s) && Enabled(cfg, s, step) && Fits(step, Update, awayFrom)
    ensures var t := Apply(cfg, s, step);
      && s.cluster.Keys <= t.cluster.Keys
      && (forall n :: n in t.cluster ==> SpecialOk(cfg, awayFrom, before, n, t.cluster[n]))
      && (step.PassOver? || step.Send? || step.Act? ==>
            var name := s.handlers[step.h].progress.items[s.handlers[step.h].progress.next].name;
            BuiltIn(name) ==> CopyName(name) in t.cluster)
  {
    CopyNames();
    if step.Send? {
      assert HandlerShifting(cfg, awayFrom, before, s.cluster, s.handlers[step.h]);
      var p := s.handlers[step.h].progress;
      var item := p.items[p.next];
      assert SpecialOk(cfg, awayFrom, before, item.name, item.pool);
      if item.name in s.cluster && IsCopyName(item.name) {
        assert SpecialOk(cfg, awayFrom, before, item.name, s.cluster[item.name]);
        RewriteCopy(cfg, awayFrom, before, item.name, item.pool, s.cluster[item.name]);
      }
    } else if step.Act? {
      assert HandlerShifting(cfg, awayFrom, before, s.cluster, s.handlers[step.h]);
      var p := s.handlers[step.h].progress;
      assert SpecialOk(cfg, awayFrom, before, p.items[p.next].name, p.items[p.next].pool);
    }
  }

  lemma StillShifting(cfg: Config, awayFrom: string, before: Cluster, cluster: Cluster, larger: Cluster, h: Handler)
    requires HandlerShifting(cfg, awayFrom, before, cluster, h) && cluster.Keys <= larger.Keys
    ensures HandlerShifting(cfg, awayFrom, before, larger, h)
  {
  }

  /** Moving past an item that is not built in, or whose copy exists. */
  lemma OneShifted(cfg: Config, awayFrom: string, before: Cluster, cluster: Cluster, h: Handler, patched: bool)
    requires HandlerShifting(cfg, awayFrom, before, cluster, h) && AtItem(h)
    requires BuiltIn(h.progress.items[h.progress.next].name) ==>
      CopyName(h.progress.items[h.progress.next].name) in cluster
    ensures HandlerShifting(cfg, awayFrom, before, cluster,
                            h.(progress := h.progress.(next := h.progress.next + 1, patched := patched)))
  {
  }

  lemma FreshSnapshot(cfg: Config, awayFrom: string, before: Cluster, s: System, items: seq<Item>)
    requires AutoShifting(cfg, awayFrom, before, s) && Listing(s.cluster, items)
    ensures HandlerShifting(cfg, awayFrom, before, s.cluster, Handler(Update, awayFrom, Working(items, 0, false)))
  {
    forall i | 0 <= i < |items|
      ensures SpecialOk(cfg, awayFrom, before, items[i].name, items[i].pool)
    {
      assert items[i].name in s.cluster;
    }
    forall n | n in before && BuiltIn(n)
      ensures IndexOf(items, n) < |items|
    {
      assert n in s.cluster;
    }
  }

  lemma ShiftStep(cfg: Config, awayFrom: string, before: Cluster, s: System, step: Step)
    requires cfg.isAutoMode && UpdatedZones(cfg, awayFrom) != []
    requires AutoShifting(cfg, awayFrom, before, s) && Enabled(cfg, s, step) && Fits(step, Update, awayFrom)
    ensures AutoShifting(cfg, awayFrom, before, Apply(cfg, s, step))
  {
    ShiftStepCluster(cfg, awayFrom, before, s, step);
    var t := Apply(cfg, s, step);
    forall h | 0 <= h < |t.handlers|
      ensures HandlerShifting(cfg, awayFrom, before, t.cluster, t.handlers[h])
    {
      if h < |s.handlers| {
        StillShifting(cfg, awayFrom, before, s.cluster, t.cluster, s.handlers[h]);
        if step.ListPools? && h == step.h {
          FreshSnapshot(cfg, awayFrom, before, s, step.items);
        } else if (step.PassOver? || step.Send? || step.Act?) && h == step.h {
          OneShifted(cfg, awayFrom, before, t.cluster, s.handlers[h], t.handlers[h].progress.patched);
        }
      }
    }
  }

  lemma {:induction false} ShiftRun(cfg: Config, awayFrom: string, before: Cluster, s: System, steps: seq<Step>)
    requires cfg.isAutoMode && UpdatedZones(cfg, awayFrom) != []
    requires AutoShifting(cfg, awayFrom, before, s) && ValidRun(cfg, s, steps)
    requires forall i :: 0 <= i < |steps| ==> Fits(steps[i], Update, awayFrom)
    ensures AutoShifting(cfg, awayFrom, before, Run(cfg, s, steps))
    decreases |steps|
  {
    if steps != [] {
      ShiftStep(cfg, awayFrom, before, s, steps[0]);
      ShiftRun(cfg, awayFrom, before, Apply(cfg, s, steps[0]), steps[1..]);
    }
  }

  /** Without any zone to go to an update does nothing at all. */
  lemma {:induction false} NoZonesRun(cfg: Config, awayFrom: string, s: System, steps: seq<Step>)
    requires UpdatedZones(cfg, awayFrom) == [] && ValidRun(cfg, s, steps)
    requires forall h :: 0 <= h < |s.handlers| ==> s.handlers[h].kind == Update && s.handlers[h].awayFrom == awayFrom
    requires forall i :: 0 <= i < |steps| ==> Fits(steps[i], Update, awayFrom)
    ensures Run(cfg, s, steps).cluster == s.cluster
    decreases |steps|
  {
    if steps != [] {
      assert Fits(steps[0], Update, awayFrom);
      NoZonesRun(cfg, awayFrom, Apply(cfg, s, steps[0]), steps[1..]);
    }
  }

  /** Any number of auto-mode handlers for the same in-progress event, interleaved in
      any way: the built-in pools are untouched, each has its copy, no other pool has
      appeared, and every other pool is as one or two updates leave it. */
  lemma AutoDuplicateShifts(cfg: Config, cluster: Cluster, steps: seq<Step>, awayFrom: string)
    requires cfg.isAutoMode && NoCopies(cluster)
    requires Phase(cfg, cluster, steps, Update, awayFrom)
    ensures Shifted(cfg, awayFrom, cluster, Run(cfg, System(cluster, []), steps).cluster)
  {
    var s := System(cluster, []);
    if UpdatedZones(cfg, awayFrom) == [] {
      NoZonesRun(cfg, awayFrom, s, steps);
      NoZonesNoUpdate(cfg, awayFrom);
    } else {
      DuplicateShifts(cfg, cluster, steps, awayFrom);
      ShiftRun(cfg, awayFrom, cluster, s, steps);
      ShiftsArrived(cfg, awayFrom, cluster, Run(cfg, s, steps));
    }
  }

  /** The invariant, once all handlers are done. */
  lemma ShiftsArrived(cfg: Config, awayFrom: string, cluster: Cluster, end: System)
    requires cfg.isAutoMode && NoCopies(cluster) && UpdatedZones(cfg, awayFrom) != []
    requires AutoShifting(cfg, awayFrom, cluster, end) && PlainKeys(cfg, end.cluster) == PlainKeys(cfg, cluster)
    requires |end.handlers| > 0 && Done(end.handlers[0])
    requires forall n :: n in PlainKeys(cfg, cluster) ==> ShiftedTo(cfg, awayFrom, cluster[n], end.cluster[n])
    ensures Shifted(cfg, awayFrom, cluster, end.cluster)
  {
    CopyNames();
    var h := end.handlers[0];
    assert HandlerShifting(cfg, awayFrom, cluster, end.cluster, h) && Done(h);
    forall n | n in Created(cluster, {})
      ensures n in end.cluster
    {
      var i := IndexOf(h.progress.items, OriginalName(n));
      assert BuiltIn(h.progress.items[i].name);
    }
    forall n | n in end.cluster
      ensures n in cluster.Keys + Created(cluster, {})
      ensures n in cluster && BuiltIn(n) ==> end.cluster[n] == cluster[n]
      ensures n in Created(cluster, {}) ==> CopyOk(cfg, awayFrom, cluster, n, end.cluster[n])
    {
      assert SpecialOk(cfg, awayFrom, cluster, n, end.cluster[n]);
      assert Plain(cfg, n) ==> n in PlainKeys(cfg, end.cluster);
    }
    forall n | n in cluster
      ensures n in end.cluster
      ensures !BuiltIn(n) ==> ShiftedTo(cfg, awayFrom, cluster[n], end.cluster[n])
    {
      assert Plain(cfg, n) ==> n in PlainKeys(cfg, cluster);
    }
  }

  // ----- a phase of restores -----

  /** Every copy still there lies ahead of every handler at work. */
  ghost predicate HandlerRestoring(awayFrom: string, cluster: Cluster, h: Handler) {
    && h.kind == Restore && h.awayFrom == awayFrom && !h.progress.Stopped?
    && (h.progress.Working? ==>
          && (forall i :: 0 <= i < |h.progress.items| && BuiltIn(h.progress.items[i].name) ==>
              h.progress.items[i].pool.away.None?)
          && (forall i, j :: 0 <= i < j < |h.progress.items| ==> h.progress.items[i].name != h.progress.items[j].name)
          && (forall n :: n in cluster && IsCopyName(n) ==>
              h.progress.next <= IndexOf(h.progress.items, n) < |h.progress.items|))
  }

  ghost predicate AutoRestoring(awayFrom: string, before: Cluster, s: System) {
    && (forall n :: BuiltIn(n) ==> (n in s.cluster <==> n in before))
    && (forall n :: n in s.cluster && BuiltIn(n) ==> s.cluster[n] == before[n] && before[n].away.None?)
    && (forall h :: 0 <= h < |s.handlers| ==> HandlerRestoring(awayFrom, s.cluster, s.handlers[h]))
  }

  /** A restore neither rewrites a built-in pool nor deletes anything but a copy. */
  lemma RestoreTasks(cfg: Config, awayFrom: string, cluster: Cluster, h: Handler)
    requires cfg.isAutoMode && HandlerRestoring(awayFrom, cluster, h) && AtItem(h)
    ensures ItemTask(cfg, h).Rewrite? ==> !BuiltIn(h.progress.items[h.progress.next].name)
    ensures !ItemTask(cfg, h).Create?
    ensures ItemTask(cfg, h).Delete? ==> ItemTask(cfg, h).name == h.progress.items[h.progress.next].name
    ensures ItemTask(cfg, h).Delete? ==>
      IsCopyName(h.progress.items[h.progress.next].name) && !BuiltIn(h.progress.items[h.progress.next].name)
  {
    CopyNames();
  }

  lemma RestoreStepCluster(cfg: Config, awayFrom: string, before: Cluster, s: System, step: Step)
    requires cfg.isAutoMode && AutoRestoring(awayFrom, before, s) && Enabled(cfg, s, step)
    requires Fits(step, Restore, awayFrom)
    ensures var t := Apply(cfg, s, step);
      && t.cluster.Keys <= s.cluster.Keys
      && (step.Act? ==>
            var p := s.handlers[step.h].progress;
            t.cluster.Keys == s.cluster.Keys - {p.items[p.next].name})
      && (forall n :: BuiltIn(n) ==> (n in t.cluster <==> n in s.cluster))
      && (forall n :: n in t.cluster && BuiltIn(n) ==> t.cluster[n] == s.cluster[n])
  {
    if step.Send? || step.Act? {
      assert HandlerRestoring(awayFrom, s.cluster, s.handlers[step.h]);
      RestoreTasks(cfg, awayFrom, s.cluster, s.handlers[step.h]);
    }
  }

  lemma StillAhead(awayFrom: string, before: Cluster, after: Cluster, h: Handler)
    requires HandlerRestoring(awayFrom, before, h) && after.Keys <= before.Keys
    ensures HandlerRestoring(awayFrom, after, h)
  {
  }

  /** Moving past an item that is no copy, or a copy that is gone, keeps the others ahead. */
  lemma OneAhead(awayFrom: string, cluster: Cluster, h: Handler, patched: bool)
    requires HandlerRestoring(awayFrom, cluster, h) && AtItem(h)
    requires IsCopyName(h.progress.items[h.progress.next].name) ==> h.progress.items[h.progress.next].name !in cluster
    ensures HandlerRestoring(awayFrom, cluster,
                             h.(progress := h.progress.(next := h.progress.next + 1, patched := patched)))
  {
    var items := h.progress.items;
    forall n | n in cluster && IsCopyName(n)
      ensures h.progress.next + 1 <= IndexOf(items, n) < |items|
    {
      assert items[IndexOf(items, n)].name == n;
    }
  }

  lemma RestoreStep(cfg: Config, awayFrom: string, before: Cluster, s: System, step: Step)
    requires cfg.isAutoMode && AutoRestoring(awayFrom, before, s) && Enabled(cfg, s, step)
    requires Fits(step, Restore, awayFrom)
    ensures AutoRestoring(awayFrom, before, Apply(cfg, s, step))
  {
    RestoreStepCluster(cfg, awayFrom, before, s, step);
    var t := Apply(cfg, s, step);
    forall h | 0 <= h < |t.handlers|
      ensures HandlerRestoring(awayFrom, t.cluster, t.handlers[h])
    {
      if h < |s.handlers| {
        StillAhead(awayFrom, s.cluster, t.cluster, s.handlers[h]);
        if (step.PassOver? || step.Send? || step.Act?) && h == step.h {
          OneAhead(awayFrom, t.cluster, s.handlers[h], t.handlers[h].progress.patched);
        }
      }
    }
  }

  lemma {:induction false} RestoreRun(cfg: Config, awayFrom: string, before: Cluster, s: System, steps: seq<Step>)
    requires cfg.isAutoMode && AutoRestoring(awayFrom, before, s) && ValidRun(cfg, s, steps)
    requires forall i :: 0 <= i < |steps| ==> Fits(steps[i], Restore, awayFrom)
    ensures AutoRestoring(awayFrom, before, Run(cfg, s, steps))
    decreases |steps|
  {
    if steps != [] {
      RestoreStep(cfg, awayFrom, before, s, steps[0]);
      RestoreRun(cfg, awayFrom, before, Apply(cfg, s, steps[0]), steps[1..]);
    }
  }

  /** Any interleaving of auto-mode handlers for the terminal event of a shift: the
      original pool names are back, the built-in pools are as they always were. */
  lemma AutoDuplicateRestores(cfg: Config, before: Cluster, shifted: Cluster, steps: seq<Step>, awayFrom: string)
    requires cfg.isAutoMode && NoCopies(before) && (forall n :: n in before ==> Settled(before[n]))
    requires Shifted(cfg, awayFrom, before, shifted)
    requires Phase(cfg, shifted, steps, Restore, awayFrom)
    ensures var end := Run(cfg, System(shifted, []), steps);
      Unshifted(cfg, awayFrom, before, end.cluster, |end.handlers|)
  {
    var s := System(shifted, []);
    var end := Run(cfg, s, steps);
    CopyNames();
    DuplicateRestores(cfg, shifted, steps, awayFrom);
    RestoreRun(cfg, awayFrom, before, s, steps);
    var h := end.handlers[0];
    assert HandlerRestoring(awayFrom, end.cluster, h) && Done(h);
    assert forall n :: n in end.cluster ==> !IsCopyName(n);
    forall n | n in before && !BuiltIn(n)
      ensures n in end.cluster && RestoredBy(cfg, awayFrom, shifted[n], end.cluster[n], |end.handlers|)
    {
      assert n in PlainKeys(cfg, shifted);
    }
    forall n | n in end.cluster
      ensures n in before
    {
      assert Plain(cfg, n) ==> n in PlainKeys(cfg, shifted);
    }
  }

  // ----- the built-in pools, whatever happens -----

  /** A restore has nothing to put back on the pool. */
  predicate NothingToRestore(pool: Pool) {
    pool.away.None? || !HasZone(pool.requirements)
  }

  /** Everybody who has seen the pool called `n` saw `pool`. */
  ghost predicate SeenAs(n: string, pool: Pool, s: System) {
    && n in s.cluster && s.cluster[n] == pool
    && forall h :: 0 <= h < |s.handlers| && s.handlers[h].progress.Working? ==>
         forall i :: 0 <= i < |s.handlers[h].progress.items| && s.handlers[h].progress.items[i].name == n ==>
           s.handlers[h].progress.items[i].pool == pool
  }

  lemma StepSeenAs(cfg: Config, n: string, pool: Pool, s: System, step: Step)
    requires cfg.isAutoMode && BuiltIn(n) && NothingToRestore(pool)
    requires SeenAs(n, pool, s) && Enabled(cfg, s, step)
    ensures SeenAs(n, pool, Apply(cfg, s, step))
  {
    CopyNames();
  }

  lemma {:induction false} RunSeenAs(cfg: Config, n: string, pool: Pool, s: System, steps: seq<Step>)
    requires cfg.isAutoMode && BuiltIn(n) && NothingToRestore(pool)
    requires SeenAs(n, pool, s) && ValidRun(cfg, s, steps)
    ensures SeenAs(n, pool, Run(cfg, s, steps))
    decreases |steps|
  {
    if steps != [] {
      StepSeenAs(cfg, n, pool, s, steps[0]);
      RunSeenAs(cfg, n, pool, Apply(cfg, s, steps[0]), steps[1..]);
    }
  }

  /** Exactly when a built-in pool is out of reach for every run in auto mode, whatever
      arrives, overlaps or fails: it has no annotation or no zone requirement. */
  lemma EveryRunKeepsBuiltInPoolIff(cfg: Config, cluster: Cluster, n: string)
    requires cfg.isAutoMode && BuiltIn(n) && n in cluster
    ensures (forall steps :: ValidRun(cfg, System(cluster, []), steps) ==>
               var end := Run(cfg, System(cluster, []), steps).cluster; n in end && end[n] == cluster[n])
      <==> NothingToRestore(cluster[n])
  {
    var s := System(cluster, []);
    if NothingToRestore(cluster[n]) {
      forall steps | ValidRun(cfg, s, steps)
        ensures var end := Run(cfg, s, steps).cluster; n in end && end[n] == cluster[n]
      {
        RunSeenAs(cfg, n, cluster[n], s, steps);
      }
    } else {
      var steps := RestoreAtOnce(cfg, cluster, n);
      assert ValidRun(cfg, s, steps);
    }
  }

  /** A terminal event whose handler meets the pool first. */
  lemma RestoreAtOnce(cfg: Config, cluster: Cluster, n: string) returns (steps: seq<Step>)
    requires cfg.isAutoMode && BuiltIn(n) && n in cluster && !NothingToRestore(cluster[n])
    ensures ValidRun(cfg, System(cluster, []), steps)
    ensures var end := Run(cfg, System(cluster, []), steps).cluster; n in end && end[n] != cluster[n]
  {
    CopyNames();
    var rest := CanList(cluster - {n});
    var items := [Item(n, cluster[n])] + rest;
    OneFirstItem(cluster, n, rest);
    var event := Event("Autoshift Completed", "", "");
    var s := System(cluster, []);
    var s1 := Apply(cfg, s, Arrive(event));
    var s2 := Apply(cfg, s1, ListPools(0, items));
    assert ItemTask(cfg, s2.handlers[0]).Rewrite?;
    var reqs := cluster[n].requirements;
    SetZoneLaws(reqs, ZoneValues(reqs) + [RestoreName(cfg, "")], []);
    RunOne(cfg, s2, Send(0, true), []);
    RunOne(cfg, s1, ListPools(0, items), [Send(0, true)] + []);
    RunOne(cfg, s, Arrive(event), [ListPools(0, items)] + ([Send(0, true)] + []));
    steps := [Arrive(event)] + ([ListPools(0, items)] + ([Send(0, true)] + []));
  }
}
