/** Whole runs, in either mode: shift after shift, each delivered any number of times
    and handled in any interleaving. */
module WholeRuns {
  import opened Sequences
  import opened Pools
  import opened AutoMode
  import opened PoolHandlers
  import opened PoolTheorems
  import opened AutoTheorems
  import PoolClient

  ghost function AfterPhase(cfg: Config, cluster: Cluster, steps: seq<Step>): Cluster
    requires ValidRun(cfg, System(cluster, []), steps)
  {
    Run(cfg, System(cluster, []), steps).cluster
  }

  // ----- one shift, one pool -----

  /** Deliveries of an in-progress event, then deliveries of a terminal one. */
  ghost predicate TwoPhases(cfg: Config, cluster: Cluster, updates: seq<Step>, restores: seq<Step>, awayFrom: string) {
    && Phase(cfg, cluster, updates, Update, awayFrom)
    && Phase(cfg, AfterPhase(cfg, cluster, updates), restores, Restore, awayFrom)
  }

  ghost function AfterBoth(cfg: Config, cluster: Cluster, updates: seq<Step>, restores: seq<Step>, awayFrom: string)
    : Cluster
    requires TwoPhases(cfg, cluster, updates, restores, awayFrom)
  {
    AfterPhase(cfg, AfterPhase(cfg, cluster, updates), restores)
  }

  lemma OnePoolRecovers(cfg: Config, cluster: Cluster, updates: seq<Step>, restores: seq<Step>, awayFrom: string,
                        n: string)
    requires TwoPhases(cfg, cluster, updates, restores, awayFrom)
    requires n in PlainKeys(cfg, cluster) && Settled(cluster[n]) && Recoverable(cfg, awayFrom, cluster[n])
    ensures var end := AfterBoth(cfg, cluster, updates, restores, awayFrom);
      n in end && Recovered(cfg, cluster[n], end[n])
  {
    var mid := AfterPhase(cfg, cluster, updates);
    var run := Run(cfg, System(mid, []), restores);
    DuplicateShifts(cfg, cluster, updates, awayFrom);
    DuplicateRestores(cfg, mid, restores, awayFrom);
    assert n in PlainKeys(cfg, mid) && n in PlainKeys(cfg, run.cluster);
    ShiftAndRestore(cfg, awayFrom, cluster[n], mid[n], run.cluster[n], |run.handlers|);
  }

  /** Exactly when a shift cannot fail to give a pool back, over all duplicates and
      interleavings of its in-progress handlers, and then of its terminal ones, whatever
      else the cluster holds; any known zone will do.  For handlers of both kinds at work
      at the same time see `Overlaps`. */
  lemma ShiftRecoversPoolIff(cfg: Config, cluster: Cluster, start: Event, finish: Event, n: string)
    requires Dispatch(start) == Some(Update) && Dispatch(finish) == Some(Restore) && AwayOf(start) == AwayOf(finish)
    requires n in PlainKeys(cfg, cluster) && Settled(cluster[n])
    ensures (forall updates, restores :: TwoPhases(cfg, cluster, updates, restores, AwayOf(start)) ==>
               var end := AfterBoth(cfg, cluster, updates, restores, AwayOf(start));
               n in end && Recovered(cfg, cluster[n], end[n]))
      <==> Recoverable(cfg, AwayOf(start), cluster[n])
  {
    var awayFrom := AwayOf(start);
    if Recoverable(cfg, awayFrom, cluster[n]) {
      forall updates, restores | TwoPhases(cfg, cluster, updates, restores, awayFrom)
        ensures var end := AfterBoth(cfg, cluster, updates, restores, awayFrom);
          n in end && Recovered(cfg, cluster[n], end[n])
      {
        OnePoolRecovers(cfg, cluster, updates, restores, awayFrom, n);
      }
    } else {
      var updates, restores := TwoUpdatesOneRestore(cfg, cluster, start, finish);
      UnrecoverableTwice(cfg, awayFrom, cluster[n]);
      assert TwoPhases(cfg, cluster, updates, restores, awayFrom);
    }
  }

  /** A shift in which the in-progress event is delivered twice and nothing overlaps. */
  lemma TwoUpdatesOneRestore(cfg: Config, cluster: Cluster, start: Event, finish: Event)
    returns (updates: seq<Step>, restores: seq<Step>)
    requires Dispatch(start) == Some(Update) && Dispatch(finish) == Some(Restore) && AwayOf(start) == AwayOf(finish)
    ensures TwoPhases(cfg, cluster, updates, restores, AwayOf(start))
    ensures var end := AfterBoth(cfg, cluster, updates, restores, AwayOf(start));
      forall n :: n in PlainKeys(cfg, cluster) ==>
        n in end && end[n] == Restored(cfg, AwayOf(start),
                                       Updated(cfg, AwayOf(start), Updated(cfg, AwayOf(start), cluster[n])))
  {
    updates := DeliverTwice(cfg, cluster, start);
    var mid := AfterPhase(cfg, cluster, updates);
    restores := DeliverOnce(cfg, System(mid, []), finish);
    assert PlainKeys(cfg, AfterPhase(cfg, mid, restores)) == PlainKeys(cfg, cluster);
  }

  // ----- runs of shifts -----

  /** One shift: a phase of in-progress deliveries, then a phase of terminal ones. */
  datatype ShiftRun = ShiftRun(awayFrom: string, updates: seq<Step>, restores: seq<Step>)

  /** Every shift starts on pools it can give back: known zones only, for instance. */
  ghost predicate ValidShifts(cfg: Config, cluster: Cluster, shifts: seq<ShiftRun>)
    decreases |shifts|
  {
    shifts != [] ==>
    && (forall n :: n in PlainKeys(cfg, cluster) ==> Recoverable(cfg, shifts[0].awayFrom, cluster[n]))
    && TwoPhases(cfg, cluster, shifts[0].updates, shifts[0].restores, shifts[0].awayFrom)
    && ValidShifts(cfg, AfterShift(cfg, cluster, shifts[0]), shifts[1..])
  }

  ghost function AfterShift(cfg: Config, cluster: Cluster, shift: ShiftRun): Cluster
    requires TwoPhases(cfg, cluster, shift.updates, shift.restores, shift.awayFrom)
  {
    AfterBoth(cfg, cluster, shift.updates, shift.restores, shift.awayFrom)
  }

  ghost function AfterShifts(cfg: Config, cluster: Cluster, shifts: seq<ShiftRun>): Cluster
    requires ValidShifts(cfg, cluster, shifts)
    decreases |shifts|
  {
    if shifts == [] then cluster else AfterShifts(cfg, AfterShift(cfg, cluster, shifts[0]), shifts[1..])
  }

  /** No shift is in progress anywhere. */
  ghost predicate AtRest(cfg: Config, cluster: Cluster) {
    (forall n :: n in cluster ==> Settled(cluster[n])) && (cfg.isAutoMode ==> NoCopies(cluster))
  }

  /** The same pools, each admitting what it admitted; built-in ones unchanged. */
  ghost predicate AllRecovered(cfg: Config, before: Cluster, after: Cluster) {
    && after.Keys == before.Keys
    && forall n :: n in before ==>
         if cfg.isAutoMode && BuiltIn(n) then after[n] == before[n] else Recovered(cfg, before[n], after[n])
  }

  lemma OneShift(cfg: Config, cluster: Cluster, shift: ShiftRun)
    requires AtRest(cfg, cluster)
    requires forall n :: n in PlainKeys(cfg, cluster) ==> Recoverable(cfg, shift.awayFrom, cluster[n])
    requires TwoPhases(cfg, cluster, shift.updates, shift.restores, shift.awayFrom)
    ensures AllRecovered(cfg, cluster, AfterShift(cfg, cluster, shift))
  {
    var end := AfterShift(cfg, cluster, shift);
    ShiftKeepsNames(cfg, cluster, shift);
    forall n | n in cluster && Plain(cfg, n)
      ensures n in end && Recovered(cfg, cluster[n], end[n])
    {
      assert n in PlainKeys(cfg, cluster);
      OnePoolRecovers(cfg, cluster, shift.updates, shift.restores, shift.awayFrom, n);
    }
  }

  lemma ShiftKeepsNames(cfg: Config, cluster: Cluster, shift: ShiftRun)
    requires AtRest(cfg, cluster)
    requires TwoPhases(cfg, cluster, shift.updates, shift.restores, shift.awayFrom)
    ensures AfterShift(cfg, cluster, shift).Keys == cluster.Keys
    ensures cfg.isAutoMode ==>
      forall n :: n in cluster && BuiltIn(n) ==> AfterShift(cfg, cluster, shift)[n] == cluster[n]
  {
    var mid := AfterPhase(cfg, cluster, shift.updates);
    if cfg.isAutoMode {
      AutoDuplicateShifts(cfg, cluster, shift.updates, shift.awayFrom);
      AutoDuplicateRestores(cfg, cluster, mid, shift.restores, shift.awayFrom);
    } else {
      DuplicateShifts(cfg, cluster, shift.updates, shift.awayFrom);
      DuplicateRestores(cfg, mid, shift.restores, shift.awayFrom);
    }
  }

  /** The same for the handlers' loops, run one after the other without interference. */
  lemma UninterruptedShift(cfg: Config, awayFrom: string, cluster: Cluster)
    requires AtRest(cfg, cluster)
    requires forall n :: n in PlainKeys(cfg, cluster) ==> Recoverable(cfg, awayFrom, cluster[n])
    ensures cfg.isAutoMode ==>
      AllRecovered(cfg, cluster, AutoRestore(cfg, awayFrom, AutoUpdate(cfg, awayFrom, cluster, {}), {}))
    ensures !cfg.isAutoMode ==>
      var mid := PoolClient.UpdatedUpTo(cfg, awayFrom, cluster, {}, cluster.Keys);
      AllRecovered(cfg, cluster, PoolClient.RestoredUpTo(cfg, awayFrom, mid, {}, mid.Keys))
  {
    if cfg.isAutoMode {
      var mid := AutoUpdate(cfg, awayFrom, cluster, {});
      FirstUpdate(cfg, awayFrom, cluster);
      FirstRestore(cfg, awayFrom, cluster, mid);
      UnshiftedRecovers(cfg, awayFrom, cluster, AutoRestore(cfg, awayFrom, mid, {}), 1);
    } else {
      forall n | n in cluster
        ensures Recovered(cfg, cluster[n], Restored(cfg, awayFrom, Updated(cfg, awayFrom, cluster[n])))
      {
        assert n in PlainKeys(cfg, cluster);
        RestoreOnceIsRestoredBy(cfg, awayFrom, Updated(cfg, awayFrom, cluster[n]));
        ShiftAndRestore(cfg, awayFrom, cluster[n], Updated(cfg, awayFrom, cluster[n]),
                        Restored(cfg, awayFrom, Updated(cfg, awayFrom, cluster[n])), 1);
      }
    }
  }

  /** While a shift away from a zone in the mapping lasts, the loops keep every plain pool
      out of it. */
  lemma LoopsAvoidZone(cfg: Config, zoneId: string, cluster: Cluster)
    requires zoneId in cfg.zoneMapping && cfg.zoneMapping[zoneId] != "" && cfg.clusterZones != []
    ensures var now := if cfg.isAutoMode then AutoUpdate(cfg, zoneId, cluster, {})
                       else PoolClient.UpdatedUpTo(cfg, zoneId, cluster, {}, cluster.Keys);
      forall n :: n in PlainKeys(cfg, cluster) ==>
        n in now && Avoids(cfg, cfg.zoneMapping[zoneId], cluster[n], now[n])
  {
    UpdatedZonesKeepAwayIff(cfg, zoneId);
    forall n | n in PlainKeys(cfg, cluster) {
      EntryIsShifted(cfg, zoneId, cluster[n]);
    }
  }

  /** And so does every interleaving of its in-progress handlers. */
  lemma PhaseAvoidsZone(cfg: Config, cluster: Cluster, updates: seq<Step>, zoneId: string)
    requires zoneId in cfg.zoneMapping && cfg.zoneMapping[zoneId] != "" && cfg.clusterZones != []
    requires Phase(cfg, cluster, updates, Update, zoneId)
    ensures forall n :: n in PlainKeys(cfg, cluster) ==>
      && n in AfterPhase(cfg, cluster, updates)
      && Avoids(cfg, cfg.zoneMapping[zoneId], cluster[n], AfterPhase(cfg, cluster, updates)[n])
  {
    DuplicateShifts(cfg, cluster, updates, zoneId);
    UpdatedZonesKeepAwayIff(cfg, zoneId);
    forall n | n in PlainKeys(cfg, cluster)
      ensures n in AfterPhase(cfg, cluster, updates)
      ensures Avoids(cfg, cfg.zoneMapping[zoneId], cluster[n], AfterPhase(cfg, cluster, updates)[n])
    {
      EntryIsShifted(cfg, zoneId, cluster[n]);
      assert n in PlainKeys(cfg, AfterPhase(cfg, cluster, updates));
    }
  }

  lemma UnshiftedRecovers(cfg: Config, awayFrom: string, before: Cluster, now: Cluster, most: nat)
    requires cfg.isAutoMode && AtRest(cfg, before) && Unshifted(cfg, awayFrom, before, now, most)
    requires forall n :: n in PlainKeys(cfg, before) ==> Recoverable(cfg, awayFrom, before[n])
    ensures AllRecovered(cfg, before, now)
  {
    forall n | n in before && !BuiltIn(n)
      ensures Recovered(cfg, before[n], now[n])
    {
      assert n in PlainKeys(cfg, before);
      var mid :| ShiftedTo(cfg, awayFrom, before[n], mid) && RestoredBy(cfg, awayFrom, mid, now[n], most);
      ShiftAndRestore(cfg, awayFrom, before[n], mid, now[n], most);
    }
  }

  /** Whole-run restoration, in standard and in auto mode: over any sequence of shifts
      that do not overlap, with any number of duplicate deliveries in any interleaving,
      the cluster ends up with the pools it started with.  Every pool admits exactly the
      zones it admitted at the start; among the cluster's zones, if it had no zone requirement. */
  lemma {:induction false} WholeRunRestores(cfg: Config, cluster: Cluster, shifts: seq<ShiftRun>)
    requires AtRest(cfg, cluster) && ValidShifts(cfg, cluster, shifts)
    ensures AllRecovered(cfg, cluster, AfterShifts(cfg, cluster, shifts))
    decreases |shifts|
  {
    if shifts != [] {
      var next := AfterShift(cfg, cluster, shifts[0]);
      OneShift(cfg, cluster, shifts[0]);
      WholeRunRestores(cfg, next, shifts[1..]);
      RecoveredTwice(cfg, cluster, next, AfterShifts(cfg, cluster, shifts));
    }
  }

  lemma RecoveredTwice(cfg: Config, a: Cluster, b: Cluster, c: Cluster)
    requires AllRecovered(cfg, a, b) && AllRecovered(cfg, b, c)
    ensures AllRecovered(cfg, a, c)
  {
    forall n | n in a && !(cfg.isAutoMode && BuiltIn(n))
      ensures Recovered(cfg, a[n], c[n])
    {
      assert Recovered(cfg, a[n], b[n]) && Recovered(cfg, b[n], c[n]);
    }
  }
}
