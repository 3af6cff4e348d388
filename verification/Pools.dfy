/** Node pools, zones, and what one shift or one restore does to a pool.

    The zone part of a pool is treated as a lens: `ZoneValues` reads the values of
    the first zone requirement and `SetZone` writes them. */
module Pools {
  import opened Sequences

  const ZONE_KEY := "topology.kubernetes.io/zone"

  datatype Operator = In | NotIn | Exists | DoesNotExist | Gt | Lt

  datatype Requirement = Requirement(key: string, operator: Operator, values: seq<string>)

  datatype Taint = Taint(key: string, value: string, effect: string)

  /** `rest` is what a budget says beyond its node count: schedule, duration, reasons. */
  datatype Budget = Budget(nodes: string, rest: map<string, string>)

  datatype Disruption = Disruption(
    budgets: seq<Budget>,
    consolidateAfter: Option<string>,
    consolidationPolicy: Option<string>)

  datatype NodeClassRef = NodeClassRef(group: string, kind: string, name: string)

  /** `away` is the away-zones annotation. */
  datatype Pool = Pool(
    requirements: seq<Requirement>,
    disruption: Disruption,
    away: Option<string>,
    weight: Option<int>,
    taints: seq<Taint>,
    nodeClass: NodeClassRef)

  /** The cached zone-ID-to-name mapping, the zones the cluster has subnets in, and
      whether EKS manages the built-in pools. */
  datatype Config = Config(zoneMapping: map<string, string>, clusterZones: seq<string>, isAutoMode: bool)

  // ----- zones -----

  /** The cached zone name, empty when the ID is unknown. */
  function ZoneName(cfg: Config, zoneId: string): string {
    if zoneId in cfg.zoneMapping then cfg.zoneMapping[zoneId] else ""
  }

  /** The name a restore puts back: unlike an update it falls back to the raw ID. */
  function RestoreName(cfg: Config, zoneId: string): string {
    if ZoneName(cfg, zoneId) == "" then zoneId else ZoneName(cfg, zoneId)
  }

  function UpdatedZones(cfg: Config, awayFrom: string): seq<string> {
    var name := ZoneName(cfg, awayFrom);
    var kept := Without(cfg.clusterZones, name);
    if name == "" || kept == [] then cfg.clusterZones else kept
  }

  /** The zone is known and the cluster has another one to go to. */
  ghost predicate Shiftable(cfg: Config, awayFrom: string) {
    ZoneName(cfg, awayFrom) != "" && exists z :: z in cfg.clusterZones && z != ZoneName(cfg, awayFrom)
  }

  lemma ShiftableZones(cfg: Config, awayFrom: string)
    requires Shiftable(cfg, awayFrom)
    ensures UpdatedZones(cfg, awayFrom) != []
    ensures forall z :: z in UpdatedZones(cfg, awayFrom) <==> z in cfg.clusterZones && z != ZoneName(cfg, awayFrom)
  {
    var z :| z in cfg.clusterZones && z != ZoneName(cfg, awayFrom);
    assert z in Without(cfg.clusterZones, ZoneName(cfg, awayFrom));
  }

  /** The filter of the cluster zones excludes the away zone, except exactly when the
      zone is unknown (and listed under an empty name) or is all the cluster has. */
  lemma UpdatedZonesKeepAwayIff(cfg: Config, awayFrom: string)
    ensures ZoneName(cfg, awayFrom) in UpdatedZones(cfg, awayFrom) <==>
      && ZoneName(cfg, awayFrom) in cfg.clusterZones
      && !Shiftable(cfg, awayFrom)
    ensures UpdatedZones(cfg, awayFrom) == [] <==> cfg.clusterZones == []
  {
    var name := ZoneName(cfg, awayFrom);
    var kept := Without(cfg.clusterZones, name);
    if kept != [] {
      assert kept[0] in kept;
    }
    if cfg.clusterZones != [] {
      assert cfg.clusterZones[0] in cfg.clusterZones;
    }
  }

  // ----- the zone lens -----

  function FirstZone(reqs: seq<Requirement>): (i: nat)
    ensures i <= |reqs|
    ensures forall j :: 0 <= j < i ==> reqs[j].key != ZONE_KEY
    ensures i < |reqs| ==> reqs[i].key == ZONE_KEY
  {
    if reqs == [] || reqs[0].key == ZONE_KEY then 0 else 1 + FirstZone(reqs[1..])
  }

  lemma FirstZoneIs(reqs: seq<Requirement>, i: nat)
    requires i <= |reqs| && (i < |reqs| ==> reqs[i].key == ZONE_KEY)
    requires forall j :: 0 <= j < i ==> reqs[j].key != ZONE_KEY
    ensures FirstZone(reqs) == i
  {
  }

  predicate HasZone(reqs: seq<Requirement>) {
    FirstZone(reqs) < |reqs|
  }

  function ZoneValues(reqs: seq<Requirement>): seq<string> {
    if HasZone(reqs) then reqs[FirstZone(reqs)].values else []
  }

  function SetZone(reqs: seq<Requirement>, values: seq<string>): seq<Requirement> {
    var i := FirstZone(reqs);
    if i < |reqs| then reqs[i := reqs[i].(values := values)] else reqs + [Requirement(ZONE_KEY, In, values)]
  }

  lemma SetZoneLaws(reqs: seq<Requirement>, v: seq<string>, w: seq<string>)
    ensures HasZone(SetZone(reqs, v)) && ZoneValues(SetZone(reqs, v)) == v
    ensures SetZone(SetZone(reqs, v), w) == SetZone(reqs, w)
    ensures HasZone(reqs) ==> SetZone(reqs, ZoneValues(reqs)) == reqs
    ensures !HasZone(reqs) ==> SetZone(reqs, v) != reqs
  {
    FirstZoneIs(SetZone(reqs, v), FirstZone(reqs));
  }

  /** The requirements about anything but the zone, in order. */
  function NonZone(reqs: seq<Requirement>): seq<Requirement> {
    if reqs == [] then [] else (if reqs[0].key == ZONE_KEY then [] else [reqs[0]]) + NonZone(reqs[1..])
  }

  lemma {:induction false} SetZoneKeepsNonZone(reqs: seq<Requirement>, v: seq<string>)
    ensures NonZone(SetZone(reqs, v)) == NonZone(reqs)
  {
    if reqs == [] {
      assert SetZone(reqs, v) == [Requirement(ZONE_KEY, In, v)];
    } else {
      SetZoneKeepsNonZone(reqs[1..], v);
      if reqs[0].key == ZONE_KEY {
        assert SetZone(reqs, v)[1..] == reqs[1..];
      } else {
        assert SetZone(reqs, v)[1..] == SetZone(reqs[1..], v);
      }
    }
  }

  // ----- what a pool admits -----

  /** Whether a zone requirement lets a node in zone `z` through; Gt and Lt compare
      numbers, which zone names are not. */
  predicate Matches(operator: Operator, values: seq<string>, z: string) {
    match operator
    case In => z in values
    case NotIn => z !in values
    case Exists => true
    case _ => false
  }

  ghost predicate Admits(reqs: seq<Requirement>, z: string) {
    forall i :: 0 <= i < |reqs| && reqs[i].key == ZONE_KEY ==> Matches(reqs[i].operator, reqs[i].values, z)
  }

  /** All zone requirements after the first let `z` through. */
  ghost predicate OthersAdmit(reqs: seq<Requirement>, z: string) {
    forall i :: FirstZone(reqs) < i < |reqs| && reqs[i].key == ZONE_KEY ==> Matches(reqs[i].operator, reqs[i].values, z)
  }

  function ZoneOperator(reqs: seq<Requirement>): Operator {
    if HasZone(reqs) then reqs[FirstZone(reqs)].operator else In
  }

  lemma AdmitsSplit(reqs: seq<Requirement>, z: string)
    requires HasZone(reqs)
    ensures Admits(reqs, z) <==> Matches(ZoneOperator(reqs), ZoneValues(reqs), z) && OthersAdmit(reqs, z)
  {
  }

  lemma AdmitsSetZone(reqs: seq<Requirement>, v: seq<string>, z: string)
    ensures Admits(SetZone(reqs, v), z) <==> Matches(ZoneOperator(reqs), v, z) && OthersAdmit(reqs, z)
    ensures !HasZone(reqs) ==> Admits(reqs, z) && OthersAdmit(reqs, z)
    ensures ZoneOperator(SetZone(reqs, v)) == ZoneOperator(reqs)
  {
    var t := SetZone(reqs, v);
    SetZoneLaws(reqs, v, v);
    FirstZoneIs(t, FirstZone(reqs));
    AdmitsSplit(t, z);
    assert forall j :: 0 <= j < |reqs| && j != FirstZone(reqs) ==> t[j] == reqs[j];
    assert OthersAdmit(t, z) <==> OthersAdmit(reqs, z);
  }

  // ----- the disruption settings -----

  /** A budget as the handlers' structs hold it. */
  function BareBudget(budget: Budget): Budget {
    budget.(rest := map[])
  }

  function BareText(text: Option<string>): Option<string> {
    if text.None? then Some("") else text
  }

  /** The disruption settings after the detour through the handlers' structs, which
      know nothing of a budget but its node count and write absent texts as empty. */
  function Trimmed(d: Disruption): (r: Disruption)
    ensures |r.budgets| == |d.budgets|
    ensures forall i :: 0 <= i < |d.budgets| ==> r.budgets[i] == BareBudget(d.budgets[i])
  {
    Disruption(seq(|d.budgets|, i requires 0 <= i < |d.budgets| => BareBudget(d.budgets[i])),
               BareText(d.consolidateAfter), BareText(d.consolidationPolicy))
  }

  /** Nothing gets lost on the detour. */
  predicate Bare(d: Disruption) {
    && (forall i :: 0 <= i < |d.budgets| ==> d.budgets[i].rest == map[])
    && d.consolidateAfter.Some? && d.consolidationPolicy.Some?
  }

  /** A settings text that is there is taken over, one that is not is written empty. */
  predicate TakesOver(original: Option<string>, copy: Option<string>) {
    if original.Some? then copy == original else copy == Some("")
  }

  lemma TrimmedLaws(d: Disruption)
    ensures Trimmed(d) == d <==> Bare(d)
    ensures TakesOver(d.consolidateAfter, Trimmed(d).consolidateAfter)
    ensures TakesOver(d.consolidationPolicy, Trimmed(d).consolidationPolicy)
    ensures |Trimmed(d).budgets| == |d.budgets|
    ensures forall i :: 0 <= i < |d.budgets| ==> Trimmed(d).budgets[i] == Budget(d.budgets[i].nodes, map[])
    ensures Trimmed(Trimmed(d)) == Trimmed(d) && Bare(Trimmed(d))
  {
    var r := Trimmed(d);
    assert forall i :: 0 <= i < |d.budgets| ==> (r.budgets[i] == d.budgets[i] <==> d.budgets[i].rest == map[]);
    if Bare(d) {
      assert r.budgets == d.budgets;
    }
    assert Trimmed(r).budgets == r.budgets;
  }

  // ----- one update, one restore -----

  /** A merge patch of a pool's spec.  Arrays are replaced whole (section 2 of RFC 7396). */
  datatype Patch = Patch(requirements: seq<Requirement>, disruption: Option<Disruption>)

  function Accept(pool: Pool, patch: Patch): Pool {
    pool.(requirements := patch.requirements,
          disruption := if patch.disruption.Some? then patch.disruption.value else pool.disruption)
  }

  /** The requirements an update sends, if it sends any. */
  function UpdateRequirements(cfg: Config, awayFrom: string, reqs: seq<Requirement>): Option<seq<Requirement>> {
    if UpdatedZones(cfg, awayFrom) == [] then None
    else if !HasZone(reqs) then Some(SetZone(reqs, UpdatedZones(cfg, awayFrom)))
    else
      var filtered := Without(ZoneValues(reqs), ZoneName(cfg, awayFrom));
      if |filtered| != |ZoneValues(reqs)| then Some(SetZone(reqs, filtered)) else None
  }

  /** The requirements a restore sends, if it sends any. */
  function RestoreRequirements(cfg: Config, awayFrom: string, pool: Pool): Option<seq<Requirement>> {
    if pool.away.Some? && HasZone(pool.requirements)
    then Some(SetZone(pool.requirements, ZoneValues(pool.requirements) + [RestoreName(cfg, awayFrom)]))
    else None
  }

  /** An update sends the disruption settings along, a restore does not. */
  function UpdatePatch(cfg: Config, awayFrom: string, seen: Pool): Option<Patch> {
    match UpdateRequirements(cfg, awayFrom, seen.requirements)
    case Some(requirements) => Some(Patch(requirements, Some(Trimmed(seen.disruption))))
    case None => None
  }

  function RestorePatch(cfg: Config, awayFrom: string, seen: Pool): Option<Patch> {
    match RestoreRequirements(cfg, awayFrom, seen)
    case Some(requirements) => Some(Patch(requirements, None))
    case None => None
  }

  /** Two patches go out one after the other; each may be refused on its own. */
  function Patched(pool: Pool, patch: Option<Patch>, away: Option<string>, specOk: bool, awayOk: bool): Pool {
    if patch.None? then pool
    else
      var next := if specOk then Accept(pool, patch.value) else pool;
      if awayOk then next.(away := away) else next
  }

  function UpdateOne(cfg: Config, awayFrom: string, pool: Pool, specOk: bool, awayOk: bool): Pool {
    Patched(pool, UpdatePatch(cfg, awayFrom, pool), Some(awayFrom), specOk, awayOk)
  }

  function RestoreOne(cfg: Config, awayFrom: string, pool: Pool, specOk: bool, awayOk: bool): Pool {
    Patched(pool, RestorePatch(cfg, awayFrom, pool), None, specOk, awayOk)
  }

  /** One update, one restore, with every patch accepted. */
  function Updated(cfg: Config, awayFrom: string, pool: Pool): Pool {
    UpdateOne(cfg, awayFrom, pool, true, true)
  }

  function Restored(cfg: Config, awayFrom: string, pool: Pool): Pool {
    RestoreOne(cfg, awayFrom, pool, true, true)
  }

  // ----- what they mean -----

  /** Exactly when an update takes the away zone, and nothing else, out of a pool
      with a zone requirement.  The code never looks at that requirement's operator,
      so the law fails when the operator is NotIn or Exists and no later zone
      requirement rules the away zone out; and without any cluster zones the code
      skips the pool, which only a pool that shuts the zone out anyway survives. */
  lemma UpdateShiftsAwayIff(cfg: Config, awayFrom: string, pool: Pool)
    requires HasZone(pool.requirements)
    ensures (forall z :: Admits(Updated(cfg, awayFrom, pool).requirements, z) <==>
                         Admits(pool.requirements, z) && z != ZoneName(cfg, awayFrom))
      <==> if cfg.clusterZones == [] then !Admits(pool.requirements, ZoneName(cfg, awayFrom))
           else !(ZoneOperator(pool.requirements) in {NotIn, Exists} &&
                  OthersAdmit(pool.requirements, ZoneName(cfg, awayFrom)))
  {
    UpdatedZonesKeepAwayIff(cfg, awayFrom);
    if cfg.clusterZones == [] {
      assert Updated(cfg, awayFrom, pool) == pool;
    } else {
      FilteredShiftsAwayIff(cfg, awayFrom, pool);
    }
  }

  lemma FilteredShiftsAwayIff(cfg: Config, awayFrom: string, pool: Pool)
    requires UpdatedZones(cfg, awayFrom) != [] && HasZone(pool.requirements)
    ensures (forall z :: Admits(Updated(cfg, awayFrom, pool).requirements, z) <==>
                         Admits(pool.requirements, z) && z != ZoneName(cfg, awayFrom))
      <==> !(ZoneOperator(pool.requirements) in {NotIn, Exists} &&
             OthersAdmit(pool.requirements, ZoneName(cfg, awayFrom)))
  {
    var name := ZoneName(cfg, awayFrom);
    var reqs := pool.requirements;
    var after := Updated(cfg, awayFrom, pool).requirements;
    var filtered := Without(ZoneValues(reqs), name);
    SetZoneLaws(reqs, filtered, filtered);
    assert after == SetZone(reqs, filtered);
    forall z
      ensures Admits(after, z) <==> Matches(ZoneOperator(reqs), filtered, z) && OthersAdmit(reqs, z)
      ensures Admits(reqs, z) <==> Matches(ZoneOperator(reqs), ZoneValues(reqs), z) && OthersAdmit(reqs, z)
    {
      AdmitsSetZone(reqs, filtered, z);
      AdmitsSplit(reqs, z);
    }
    assert name !in filtered;
    if ZoneOperator(reqs) in {NotIn, Exists} && OthersAdmit(reqs, name) {
      assert Admits(after, name);
    }
  }

  /** A pool without a zone requirement comes to admit the cluster's other zones,
      except exactly when the cluster has no zone at all, or has the away zone and
      no other (an unknown zone has the empty name). */
  lemma UpdateAddsZonesIff(cfg: Config, awayFrom: string, pool: Pool)
    requires !HasZone(pool.requirements)
    ensures (forall z :: Admits(Updated(cfg, awayFrom, pool).requirements, z) <==>
                         z in cfg.clusterZones && z != ZoneName(cfg, awayFrom))
      <==> cfg.clusterZones != [] && (ZoneName(cfg, awayFrom) in cfg.clusterZones ==> Shiftable(cfg, awayFrom))
  {
    UpdatedZonesKeepAwayIff(cfg, awayFrom);
    var after := Updated(cfg, awayFrom, pool).requirements;
    if cfg.clusterZones == [] {
      AdmitsSetZone(pool.requirements, [], "");
      assert Admits(after, "") && !("" in cfg.clusterZones);
    } else {
      forall z
        ensures Admits(after, z) <==> z in UpdatedZones(cfg, awayFrom)
      {
        AdmitsSetZone(pool.requirements, UpdatedZones(cfg, awayFrom), z);
      }
      assert forall z :: z in UpdatedZones(cfg, awayFrom) ==> z in cfg.clusterZones;
      assert forall z :: z in cfg.clusterZones && z != ZoneName(cfg, awayFrom) ==> z in UpdatedZones(cfg, awayFrom);
    }
  }

  /** A second update would leave the pool's new requirements alone. */
  predicate Steady(cfg: Config, awayFrom: string, pool: Pool) {
    HasZone(pool.requirements) || ZoneName(cfg, awayFrom) !in UpdatedZones(cfg, awayFrom)
  }

  /** Repeating an update changes nothing more, except exactly when the pool has no
      zone requirement and the zones just written still contain the away zone. */
  lemma UpdateIdempotentIff(cfg: Config, awayFrom: string, pool: Pool)
    ensures Updated(cfg, awayFrom, Updated(cfg, awayFrom, pool)) == Updated(cfg, awayFrom, pool)
      <==> Steady(cfg, awayFrom, pool)
  {
    var name, zones := ZoneName(cfg, awayFrom), UpdatedZones(cfg, awayFrom);
    var reqs := pool.requirements;
    var filtered := Without(ZoneValues(reqs), name);
    SetZoneLaws(reqs, filtered, Without(filtered, name));
    SetZoneLaws(reqs, zones, Without(zones, name));
  }

  // ----- the same for an entry of the cached mapping -----

  /** The zones to go to, case by case. */
  lemma UpdatedZonesIs(cfg: Config, zoneId: string)
    ensures zoneId !in cfg.zoneMapping ==> UpdatedZones(cfg, zoneId) == cfg.clusterZones
    ensures zoneId in cfg.zoneMapping && (forall z :: z in cfg.clusterZones ==> z == cfg.zoneMapping[zoneId]) ==>
      UpdatedZones(cfg, zoneId) == cfg.clusterZones
    ensures zoneId in cfg.zoneMapping && cfg.zoneMapping[zoneId] != "" &&
            (exists z :: z in cfg.clusterZones && z != cfg.zoneMapping[zoneId]) ==>
      forall z: string :: multiset(UpdatedZones(cfg, zoneId))[z] ==
        if z == cfg.zoneMapping[zoneId] then 0 else multiset(cfg.clusterZones)[z]
  {
    if zoneId in cfg.zoneMapping {
      var kept := Without(cfg.clusterZones, cfg.zoneMapping[zoneId]);
      WithoutIs(cfg.clusterZones, cfg.zoneMapping[zoneId]);
      if kept != [] {
        assert kept[0] in kept;
      }
    }
  }

  /** `now` is what `before` should be while the zone is to be avoided. */
  ghost predicate Avoids(cfg: Config, zone: string, before: Pool, now: Pool) {
    && (HasZone(before.requirements) && ZoneOperator(before.requirements) == In ==>
          forall z :: Admits(now.requirements, z) <==> Admits(before.requirements, z) && z != zone)
    && (!HasZone(before.requirements) && (exists z :: z in cfg.clusterZones && z != zone) ==>
          forall z :: Admits(now.requirements, z) <==> z in cfg.clusterZones && z != zone)
  }

  /** What an update and a restore mean for a zone ID that is in the mapping. */
  lemma EntryIsShifted(cfg: Config, zoneId: string, pool: Pool)
    requires zoneId in cfg.zoneMapping && cfg.zoneMapping[zoneId] != "" && cfg.clusterZones != []
    ensures Avoids(cfg, cfg.zoneMapping[zoneId], pool, Updated(cfg, zoneId, pool))
    ensures Updated(cfg, zoneId, pool) == pool || Updated(cfg, zoneId, pool).away == Some(zoneId)
    ensures pool.away.Some? && HasZone(pool.requirements) ==>
      ZoneValues(Restored(cfg, zoneId, pool).requirements) == ZoneValues(pool.requirements) + [cfg.zoneMapping[zoneId]]
  {
    if HasZone(pool.requirements) {
      UpdateShiftsAwayIff(cfg, zoneId, pool);
    } else {
      UpdateAddsZonesIff(cfg, zoneId, pool);
    }
    SetZoneLaws(pool.requirements, ZoneValues(pool.requirements) + [cfg.zoneMapping[zoneId]], []);
  }

  /** And for one that is not: the update goes nowhere, the restore uses the ID itself. */
  lemma StrangerIsRestored(cfg: Config, zoneId: string, pool: Pool)
    requires zoneId !in cfg.zoneMapping && pool.away.Some? && HasZone(pool.requirements)
    ensures ZoneValues(Restored(cfg, zoneId, pool).requirements) == ZoneValues(pool.requirements) + [zoneId]
  {
    SetZoneLaws(pool.requirements, ZoneValues(pool.requirements) + [zoneId], []);
  }

  /** The disruption settings after an update that had something to send. */
  lemma SettingsTakenOver(cfg: Config, awayFrom: string, pool: Pool)
    requires UpdateRequirements(cfg, awayFrom, pool.requirements).Some?
    ensures var d, now := pool.disruption, Updated(cfg, awayFrom, pool).disruption;
      && TakesOver(d.consolidateAfter, now.consolidateAfter)
      && TakesOver(d.consolidationPolicy, now.consolidationPolicy)
      && |now.budgets| == |d.budgets|
      && forall i :: 0 <= i < |d.budgets| ==> now.budgets[i] == Budget(d.budgets[i].nodes, map[])
  {
    TrimmedLaws(pool.disruption);
  }

  ghost predicate SameSet(a: seq<string>, b: seq<string>) {
    forall z :: z in a <==> z in b
  }

  /** Exactly when one update and one restore give the zone list back as a set, with
      any of the four patches refused.  Where the update has something to take out,
      what matters is that it failed, or that the restore both found an annotation and
      got through; where it has not, the restore must not add the zone either. */
  lemma RoundTripIff(cfg: Config, awayFrom: string, pool: Pool, updateReqs: bool, updateAway: bool,
                     restoreReqs: bool, restoreAway: bool)
    requires ZoneName(cfg, awayFrom) != "" && HasZone(pool.requirements)
    ensures var after := RestoreOne(cfg, awayFrom, UpdateOne(cfg, awayFrom, pool, updateReqs, updateAway),
                                    restoreReqs, restoreAway);
      SameSet(ZoneValues(after.requirements), ZoneValues(pool.requirements))
      <==> if ZoneName(cfg, awayFrom) !in ZoneValues(pool.requirements) then !(pool.away.Some? && restoreReqs)
           else cfg.clusterZones == [] || !updateReqs || ((updateAway || pool.away.Some?) && restoreReqs)
  {
    UpdatedZonesKeepAwayIff(cfg, awayFrom);
    if ZoneName(cfg, awayFrom) in ZoneValues(pool.requirements) && cfg.clusterZones != [] {
      var mid := UpdateOne(cfg, awayFrom, pool, updateReqs, updateAway);
      var filtered := Without(ZoneValues(pool.requirements), ZoneName(cfg, awayFrom));
      SetZoneLaws(pool.requirements, filtered, []);
      assert ZoneValues(mid.requirements) == if updateReqs then filtered else ZoneValues(pool.requirements);
      RestoredList(cfg, awayFrom, mid, restoreReqs, restoreAway);
    } else {
      assert UpdateOne(cfg, awayFrom, pool, updateReqs, updateAway) == pool;
      RestoredList(cfg, awayFrom, pool, restoreReqs, restoreAway);
    }
  }

  /** The zones a restore leaves listed. */
  lemma RestoredList(cfg: Config, awayFrom: string, pool: Pool, restoreReqs: bool, restoreAway: bool)
    requires ZoneName(cfg, awayFrom) != "" && HasZone(pool.requirements)
    ensures var after := RestoreOne(cfg, awayFrom, pool, restoreReqs, restoreAway);
      forall z :: z in ZoneValues(after.requirements) <==>
        z in ZoneValues(pool.requirements) || (z == ZoneName(cfg, awayFrom) && pool.away.Some? && restoreReqs)
  {
    SetZoneLaws(pool.requirements, ZoneValues(pool.requirements) + [RestoreName(cfg, awayFrom)], []);
  }

  /** The same for a pool without a zone requirement, which the update gives one: exactly
      when it comes to admit again all the cluster's zones. */
  lemma RoundTripAddedIff(cfg: Config, awayFrom: string, pool: Pool, updateReqs: bool, updateAway: bool,
                          restoreReqs: bool, restoreAway: bool)
    requires ZoneName(cfg, awayFrom) != "" && !HasZone(pool.requirements)
    ensures var after := RestoreOne(cfg, awayFrom, UpdateOne(cfg, awayFrom, pool, updateReqs, updateAway),
                                    restoreReqs, restoreAway);
      SameAdmitted(cfg, pool, after)
      <==> (|| !updateReqs || !Shiftable(cfg, awayFrom) || ZoneName(cfg, awayFrom) !in cfg.clusterZones
            || ((updateAway || pool.away.Some?) && restoreReqs))
  {
    var name := ZoneName(cfg, awayFrom);
    var mid := UpdateOne(cfg, awayFrom, pool, updateReqs, updateAway);
    var after := RestoreOne(cfg, awayFrom, mid, restoreReqs, restoreAway);
    UpdatedZonesKeepAwayIff(cfg, awayFrom);
    if updateReqs && cfg.clusterZones != [] {
      SetZoneLaws(pool.requirements, UpdatedZones(cfg, awayFrom), UpdatedZones(cfg, awayFrom) + [name]);
      RestoredList(cfg, awayFrom, mid, restoreReqs, restoreAway);
      SetZoneLaws(pool.requirements, UpdatedZones(cfg, awayFrom) + [name], []);
      ListsAdmittedIff(cfg, pool, ZoneValues(after.requirements), after);
    } else {
      assert after.requirements == pool.requirements;
    }
  }

  /** A pool given a zone requirement admits the cluster's zones if it lists them. */
  lemma ListsAdmittedIff(cfg: Config, pool: Pool, values: seq<string>, after: Pool)
    requires !HasZone(pool.requirements) && after.requirements == SetZone(pool.requirements, values)
    ensures SameAdmitted(cfg, pool, after) <==> forall z :: z in cfg.clusterZones ==> z in values
  {
    forall z
      ensures Admits(after.requirements, z) <==> z in values
      ensures Admits(pool.requirements, z)
    {
      AdmitsSetZone(pool.requirements, values, z);
    }
  }

  /** `restored` differs from `shifted` by one or more extra mentions of `name`. */
  ghost predicate ListsAgain(shifted: Pool, restored: Pool, name: string, most: nat) {
    exists times :: 1 <= times <= most
      && var values := ZoneValues(shifted.requirements) + Repeat(name, times);
         restored == shifted.(requirements := SetZone(shifted.requirements, values), away := None)
  }

  function Repeat(name: string, times: nat): (r: seq<string>)
    ensures |r| == times && forall x :: x in r ==> x == name
    ensures times > 0 ==> name in r
  {
    var r := seq(times, _ => name);
    assert times > 0 ==> r[0] == name;
    r
  }

  /** What any number of overlapping restores may leave of a pool. */
  ghost predicate RestoredBy(cfg: Config, awayFrom: string, pool: Pool, restored: Pool, most: nat) {
    if pool.away.Some? && HasZone(pool.requirements)
    then ListsAgain(pool, restored, RestoreName(cfg, awayFrom), most)
    else restored == pool
  }

  /** No shift is in progress on the pool. */
  predicate Settled(pool: Pool) {
    pool.away.None?
  }

  /** The same zones are admitted: all of them if the pool had a zone requirement,
      all the cluster has if it had none. */
  ghost predicate SameAdmitted(cfg: Config, before: Pool, after: Pool) {
    forall z :: HasZone(before.requirements) || z in cfg.clusterZones ==>
      (Admits(after.requirements, z) <==> Admits(before.requirements, z))
  }

  /** Nothing of a shift is left that matters for where nodes may be placed. */
  ghost predicate Recovered(cfg: Config, before: Pool, after: Pool) {
    && Settled(after) && SameAdmitted(cfg, before, after)
    && (HasZone(before.requirements) ==> HasZone(after.requirements))
    && NonZone(after.requirements) == NonZone(before.requirements)
  }

  /** Writing a zone list that holds the same zones, or all the cluster's zones where
      there was no requirement, leaves the admitted zones alone. */
  lemma SameZonesSameAdmitted(cfg: Config, before: Pool, values: seq<string>, after: Pool)
    requires after.away.None? && after.requirements == SetZone(before.requirements, values)
    requires if HasZone(before.requirements) then SameSet(values, ZoneValues(before.requirements))
             else forall z :: z in cfg.clusterZones ==> z in values
    ensures Recovered(cfg, before, after)
  {
    var reqs := before.requirements;
    SetZoneLaws(reqs, values, []);
    SetZoneKeepsNonZone(reqs, values);
    forall z | HasZone(reqs) || z in cfg.clusterZones
      ensures Admits(after.requirements, z) <==> Admits(reqs, z)
    {
      AdmitsSetZone(reqs, values, z);
      if HasZone(reqs) {
        AdmitsSplit(reqs, z);
      }
    }
  }

  // ----- a whole shift of one pool -----

  /** What any number of overlapping updates may leave of a pool: what one uninterrupted
      update leaves, or what two leave where a second one still changes something. */
  predicate ShiftedTo(cfg: Config, awayFrom: string, pool: Pool, now: Pool) {
    || now == Updated(cfg, awayFrom, pool)
    || (!Steady(cfg, awayFrom, pool) && now == Updated(cfg, awayFrom, Updated(cfg, awayFrom, pool)))
  }

  /** A restore does not misread the values under `""` and `name` of the first zone
      requirement: it lists no `""`, or its operator has no use for values, or the
      later zone requirements decide about both. */
  ghost predicate Indifferent(reqs: seq<Requirement>, name: string) {
    || "" !in ZoneValues(reqs) || ZoneOperator(reqs) !in {In, NotIn}
    || (!OthersAdmit(reqs, "") && (name in ZoneValues(reqs) || !OthersAdmit(reqs, name)))
  }

  /** A shift away from a known zone can be taken back once its updates are done.  Of an unknown zone the
      update takes out the empty name while the restore puts back the raw ID, so
      everything turns on whether the empty name is listed. */
  ghost predicate Recoverable(cfg: Config, awayFrom: string, pool: Pool) {
    || ZoneName(cfg, awayFrom) != "" || awayFrom == "" || cfg.clusterZones == []
    || (if HasZone(pool.requirements) then Indifferent(pool.requirements, awayFrom) else "" !in cfg.clusterZones)
  }

  /** What a pool looks like after its updates and `times` restores. */
  lemma AfterUpdates(cfg: Config, awayFrom: string, pool: Pool, now: Pool)
    requires ShiftedTo(cfg, awayFrom, pool, now) && UpdateRequirements(cfg, awayFrom, pool.requirements).Some?
    ensures var name, zones, reqs := ZoneName(cfg, awayFrom), UpdatedZones(cfg, awayFrom), pool.requirements;
      && now.away == Some(awayFrom)
      && HasZone(now.requirements) && now.requirements == SetZone(reqs, ZoneValues(now.requirements))
      && now == pool.(requirements := now.requirements, disruption := Trimmed(pool.disruption), away := Some(awayFrom))
      && if HasZone(reqs) then ZoneValues(now.requirements) == Without(ZoneValues(reqs), name)
         else ZoneValues(now.requirements) == zones || ZoneValues(now.requirements) == Without(zones, name)
  {
    var name, zones, reqs := ZoneName(cfg, awayFrom), UpdatedZones(cfg, awayFrom), pool.requirements;
    TrimmedLaws(pool.disruption);
    var first := if HasZone(reqs) then Without(ZoneValues(reqs), name) else zones;
    SetZoneLaws(reqs, first, Without(first, name));
    SetZoneLaws(reqs, Without(first, name), []);
  }

  /** The zones listed after a whole shift: as a set those kept, and the one put back. */
  lemma AfterShift(cfg: Config, awayFrom: string, pool: Pool, now: Pool, restored: Pool, most: nat)
    requires ShiftedTo(cfg, awayFrom, pool, now) && UpdateRequirements(cfg, awayFrom, pool.requirements).Some?
    requires RestoredBy(cfg, awayFrom, now, restored, most)
    ensures Settled(restored) && restored.requirements == SetZone(pool.requirements, ZoneValues(restored.requirements))
    ensures forall z :: z in ZoneValues(restored.requirements) <==>
                        z in ZoneValues(now.requirements) || z == RestoreName(cfg, awayFrom)
  {
    AfterUpdates(cfg, awayFrom, pool, now);
    var name, kept := RestoreName(cfg, awayFrom), ZoneValues(now.requirements);
    var times :| 1 <= times <= most && restored.requirements == SetZone(now.requirements, kept + Repeat(name, times));
    SetZoneLaws(pool.requirements, kept, kept + Repeat(name, times));
    SetZoneLaws(pool.requirements, kept + Repeat(name, times), []);
  }

  /** A whole shift gives the admitted zones back, however often the pool was updated
      and restored, with one exception: see `ShiftRecoversIff`. */
  lemma ShiftAndRestore(cfg: Config, awayFrom: string, pool: Pool, now: Pool, restored: Pool, most: nat)
    requires Settled(pool) && Recoverable(cfg, awayFrom, pool)
    requires ShiftedTo(cfg, awayFrom, pool, now) && RestoredBy(cfg, awayFrom, now, restored, most)
    ensures Recovered(cfg, pool, restored)
  {
    var name, reqs := ZoneName(cfg, awayFrom), pool.requirements;
    UpdatedZonesKeepAwayIff(cfg, awayFrom);
    if UpdateRequirements(cfg, awayFrom, reqs).Some? {
      AfterUpdates(cfg, awayFrom, pool, now);
      AfterShift(cfg, awayFrom, pool, now, restored, most);
      var values := ZoneValues(restored.requirements);
      if HasZone(reqs) && !(SameSet(values, ZoneValues(reqs))) {
        UnknownZoneRecovers(cfg, awayFrom, pool, restored);
      } else {
        SameZonesSameAdmitted(cfg, pool, values, restored);
      }
    } else {
      assert now == pool;
    }
  }

  /** The list has lost `""` and gained the raw ID. */
  lemma UnknownZoneRecovers(cfg: Config, awayFrom: string, pool: Pool, restored: Pool)
    requires HasZone(pool.requirements) && Settled(restored)
    requires restored.requirements == SetZone(pool.requirements, ZoneValues(restored.requirements))
    requires "" in ZoneValues(pool.requirements) && awayFrom != ""
    requires forall z :: z in ZoneValues(restored.requirements) <==>
      (z in ZoneValues(pool.requirements) && z != "") || z == awayFrom
    ensures Recovered(cfg, pool, restored) <==> Indifferent(pool.requirements, awayFrom)
  {
    var reqs, values := pool.requirements, ZoneValues(restored.requirements);
    SetZoneLaws(reqs, values, []);
    SetZoneKeepsNonZone(reqs, values);
    forall z
      ensures Admits(restored.requirements, z) <==> Matches(ZoneOperator(reqs), values, z) && OthersAdmit(reqs, z)
      ensures Admits(reqs, z) <==> Matches(ZoneOperator(reqs), ZoneValues(reqs), z) && OthersAdmit(reqs, z)
    {
      AdmitsSetZone(reqs, values, z);
      AdmitsSplit(reqs, z);
    }
    if SameAdmitted(cfg, pool, restored) {
      assert Admits(restored.requirements, "") <==> Admits(reqs, "");
      assert Admits(restored.requirements, awayFrom) <==> Admits(reqs, awayFrom);
    }
  }

  /** Exactly when no run of updates and restores can fail to give a pool back what it
      admitted: for every known zone, and for an unknown one unless the empty name is
      listed where it matters. */
  lemma ShiftRecoversIff(cfg: Config, awayFrom: string, pool: Pool)
    requires Settled(pool)
    ensures (forall now, restored, most ::
               ShiftedTo(cfg, awayFrom, pool, now) && RestoredBy(cfg, awayFrom, now, restored, most) ==>
                 Recovered(cfg, pool, restored))
      <==> Recoverable(cfg, awayFrom, pool)
  {
    if Recoverable(cfg, awayFrom, pool) {
      forall now, restored, most | ShiftedTo(cfg, awayFrom, pool, now) && RestoredBy(cfg, awayFrom, now, restored, most)
        ensures Recovered(cfg, pool, restored)
      {
        ShiftAndRestore(cfg, awayFrom, pool, now, restored, most);
      }
    } else {
      var now := Updated(cfg, awayFrom, Updated(cfg, awayFrom, pool));
      RestoreOnceIsRestoredBy(cfg, awayFrom, now);
      UpdateIdempotentIff(cfg, awayFrom, pool);
      UnrecoverableTwice(cfg, awayFrom, pool);
      assert ShiftedTo(cfg, awayFrom, pool, now) && RestoredBy(cfg, awayFrom, now, Restored(cfg, awayFrom, now), 1);
    }
  }

  /** Two updates and a restore lose what cannot be recovered. */
  lemma UnrecoverableTwice(cfg: Config, awayFrom: string, pool: Pool)
    requires Settled(pool) && !Recoverable(cfg, awayFrom, pool)
    ensures !Recovered(cfg, pool, Restored(cfg, awayFrom, Updated(cfg, awayFrom, Updated(cfg, awayFrom, pool))))
  {
    var reqs := pool.requirements;
    var now := Updated(cfg, awayFrom, Updated(cfg, awayFrom, pool));
    var restored := Restored(cfg, awayFrom, now);
    UpdatedZonesKeepAwayIff(cfg, awayFrom);
    UpdateIdempotentIff(cfg, awayFrom, pool);
    RestoreOnceIsRestoredBy(cfg, awayFrom, now);
    AfterUpdates(cfg, awayFrom, pool, now);
    AfterShift(cfg, awayFrom, pool, now, restored, 1);
    if HasZone(reqs) {
      UnknownZoneRecovers(cfg, awayFrom, pool, restored);
    } else {
      UnsteadyTwice(cfg, awayFrom, pool);
      AdmitsSetZone(reqs, ZoneValues(restored.requirements), "");
      assert Admits(reqs, "") && !Admits(restored.requirements, "");
    }
  }

  /** The second update of a pool that is not steady takes the away zone out again. */
  lemma UnsteadyTwice(cfg: Config, awayFrom: string, pool: Pool)
    requires !Steady(cfg, awayFrom, pool)
    ensures var twice := Updated(cfg, awayFrom, Updated(cfg, awayFrom, pool));
      && twice != Updated(cfg, awayFrom, pool)
      && twice.requirements == SetZone(pool.requirements, Without(UpdatedZones(cfg, awayFrom), ZoneName(cfg, awayFrom)))
      && ZoneValues(twice.requirements) == Without(UpdatedZones(cfg, awayFrom), ZoneName(cfg, awayFrom))
  {
    var zones := UpdatedZones(cfg, awayFrom);
    var fewer := Without(zones, ZoneName(cfg, awayFrom));
    UpdateIdempotentIff(cfg, awayFrom, pool);
    SetZoneLaws(pool.requirements, zones, fewer);
    SetZoneLaws(pool.requirements, fewer, []);
  }

  /** Exactly when update and restore, with any patch refused, leave the disruption
      settings alone: the update takes them through structs that drop what a budget
      says beyond its node count, and the restore has nothing to undo that with. */
  lemma SettingsRoundTripIff(cfg: Config, awayFrom: string, pool: Pool, updateSpec: bool, updateAway: bool,
                             restoreSpec: bool, restoreAway: bool)
    ensures RestoreOne(cfg, awayFrom, UpdateOne(cfg, awayFrom, pool, updateSpec, updateAway), restoreSpec,
                       restoreAway).disruption == pool.disruption
      <==> Bare(pool.disruption) || !updateSpec || UpdateRequirements(cfg, awayFrom, pool.requirements).None?
  {
    TrimmedLaws(pool.disruption);
  }

  /** A single restore is one of the outcomes `RestoredBy` allows. */
  lemma RestoreOnceIsRestoredBy(cfg: Config, awayFrom: string, pool: Pool)
    ensures RestoredBy(cfg, awayFrom, pool, Restored(cfg, awayFrom, pool), 1)
  {
    assert Repeat(RestoreName(cfg, awayFrom), 1) == [RestoreName(cfg, awayFrom)];
    if pool.away.Some? && HasZone(pool.requirements) {
      var times: nat := 1;
      assert Restored(cfg, awayFrom, pool) ==
             pool.(requirements := SetZone(pool.requirements,
                                           ZoneValues(pool.requirements) +
                                             Repeat(RestoreName(cfg, awayFrom), times)), away := None);
    }
  }

  /** Two shifts that overlap, ended in either order.  They share the one annotation, so
      the first restore clears it and the second finds nothing to do: the zones come
      back exactly when the shift that ends last had no zone of its own to give back. */
  lemma OverlapRoundTripIff(cfg: Config, first: string, second: string, inOrder: bool, pool: Pool)
    requires ZoneName(cfg, first) != "" && ZoneName(cfg, second) != ""
    requires Settled(pool) && HasZone(pool.requirements)
    ensures var both := Updated(cfg, second, Updated(cfg, first, pool));
      var (sooner, later) := if inOrder then (first, second) else (second, first);
      var end := Restored(cfg, later, Restored(cfg, sooner, both));
      && Settled(end)
      && (SameSet(ZoneValues(end.requirements), ZoneValues(pool.requirements))
          <==> (|| cfg.clusterZones == [] || ZoneName(cfg, first) == ZoneName(cfg, second)
                || ZoneName(cfg, later) !in ZoneValues(pool.requirements)))
  {
    var values := ZoneValues(pool.requirements);
    var (sooner, later) := if inOrder then (first, second) else (second, first);
    var c, d := ZoneName(cfg, sooner), ZoneName(cfg, later);
    var both := Updated(cfg, second, Updated(cfg, first, pool));
    var listed := ZoneValues(Restored(cfg, later, Restored(cfg, sooner, both)).requirements);
    BothUpdates(cfg, first, second, pool);
    BothRestores(cfg, sooner, later, both);
    if cfg.clusterZones != [] {
      assert forall z :: z in listed <==> (z in values && z != c && z != d) || (z == c && both.away.Some?);
    }
    if SameSet(listed, values) {
      assert d in listed <==> d in values;
    }
  }

  /** Of two restores the first does all there is to do. */
  lemma BothRestores(cfg: Config, sooner: string, later: string, pool: Pool)
    requires HasZone(pool.requirements)
    ensures var end := Restored(cfg, later, Restored(cfg, sooner, pool));
      && Settled(end)
      && forall z :: z in ZoneValues(end.requirements) <==>
           z in ZoneValues(pool.requirements) || (z == RestoreName(cfg, sooner) && pool.away.Some?)
  {
    SetZoneLaws(pool.requirements, ZoneValues(pool.requirements) + [RestoreName(cfg, sooner)], []);
  }

  /** After two updates both zones are gone, and one annotation stands for both. */
  lemma BothUpdates(cfg: Config, first: string, second: string, pool: Pool)
    requires HasZone(pool.requirements)
    ensures var both := Updated(cfg, second, Updated(cfg, first, pool));
      var values, none := ZoneValues(pool.requirements), cfg.clusterZones == [];
      && HasZone(both.requirements)
      && (forall z :: z in ZoneValues(both.requirements) <==>
            z in values && (none || (z != ZoneName(cfg, first) && z != ZoneName(cfg, second))))
      && (both.away.Some? <==>
            pool.away.Some? || (!none && (ZoneName(cfg, first) in values || ZoneName(cfg, second) in values)))
  {
    AfterOneUpdate(cfg, first, pool);
    AfterOneUpdate(cfg, second, Updated(cfg, first, pool));
  }

  lemma AfterOneUpdate(cfg: Config, awayFrom: string, pool: Pool)
    requires HasZone(pool.requirements)
    ensures var once, name := Updated(cfg, awayFrom, pool), ZoneName(cfg, awayFrom);
      && HasZone(once.requirements)
      && (forall z :: z in ZoneValues(once.requirements) <==>
            z in ZoneValues(pool.requirements) && (cfg.clusterZones == [] || z != name))
      && (once.away.Some? <==>
            pool.away.Some? || (cfg.clusterZones != [] && name in ZoneValues(pool.requirements)))
  {
    UpdatedZonesKeepAwayIff(cfg, awayFrom);
    SetZoneLaws(pool.requirements, Without(ZoneValues(pool.requirements), ZoneName(cfg, awayFrom)), []);
  }

  /** Overlapping shifts of a pool without a zone requirement: exactly when it comes to
      admit again all the cluster's zones.  The zone of the shift that ends last is
      missing, unless the cluster does not have it, or has no other and the first update
      wrote it in. */
  lemma OverlapAddedIff(cfg: Config, first: string, second: string, inOrder: bool, pool: Pool)
    requires ZoneName(cfg, first) != "" && ZoneName(cfg, second) != ""
    requires Settled(pool) && !HasZone(pool.requirements)
    ensures var both := Updated(cfg, second, Updated(cfg, first, pool));
      var (sooner, later) := if inOrder then (first, second) else (second, first);
      var end := Restored(cfg, later, Restored(cfg, sooner, both));
      && Settled(end)
      && (SameAdmitted(cfg, pool, end)
          <==> (|| ZoneName(cfg, first) == ZoneName(cfg, second) || ZoneName(cfg, later) !in cfg.clusterZones
                || (later == first && !Shiftable(cfg, first))))
  {
    var (sooner, later) := if inOrder then (first, second) else (second, first);
    var once, both := Updated(cfg, first, pool), Updated(cfg, second, Updated(cfg, first, pool));
    var end := Restored(cfg, later, Restored(cfg, sooner, both));
    UpdatedZonesKeepAwayIff(cfg, first);
    if cfg.clusterZones == [] {
      assert end == pool;
    } else {
      SetZoneLaws(pool.requirements, UpdatedZones(cfg, first), []);
      AfterOneUpdate(cfg, second, once);
      BothRestores(cfg, sooner, later, both);
      StaysAdded(cfg, second, pool, once);
      RestoredAdded(pool, both, RestoreName(cfg, sooner));
      ListsAdmittedIff(cfg, pool, ZoneValues(end.requirements), end);
    }
  }

  /** The requirement that the first update added is the one a second update rewrites. */
  lemma StaysAdded(cfg: Config, awayFrom: string, pool: Pool, once: Pool)
    requires !HasZone(pool.requirements)
    requires once.requirements == SetZone(pool.requirements, ZoneValues(once.requirements))
    ensures var twice := Updated(cfg, awayFrom, once);
      twice.requirements == SetZone(pool.requirements, ZoneValues(twice.requirements))
  {
    var fewer := Without(ZoneValues(once.requirements), ZoneName(cfg, awayFrom));
    SetZoneLaws(pool.requirements, ZoneValues(once.requirements), fewer);
    SetZoneLaws(pool.requirements, fewer, []);
  }

  lemma RestoredAdded(pool: Pool, both: Pool, name: string)
    requires !HasZone(pool.requirements)
    requires both.requirements == SetZone(pool.requirements, ZoneValues(both.requirements))
    ensures var values := ZoneValues(both.requirements) + [name];
      && SetZone(both.requirements, values) == SetZone(pool.requirements, values)
      && ZoneValues(SetZone(pool.requirements, values)) == values
  {
    var values := ZoneValues(both.requirements) + [name];
    SetZoneLaws(pool.requirements, ZoneValues(both.requirements), values);
    SetZoneLaws(pool.requirements, values, []);
  }
}
