/** Auto mode: the built-in pools are left alone and shadowed by `-kss` copies, all
    other pools are changed in place as in standard mode. */
module AutoMode {
  import opened Sequences
  import opened Pools

  /** The API calls a handler makes; a set of them says which are refused. */
  datatype Call =
    | SpecOf(name: string)
    | AnnotationOf(name: string)
    | CreateOf(name: string)
    | DeleteOf(name: string)

  predicate BuiltIn(name: string) {
    name == "general-purpose" || name == "system"
  }

  function CopyName(name: string): string {
    name + "-kss"
  }

  predicate IsCopyName(name: string) {
    name == "general-purpose-kss" || name == "system-kss"
  }

  function OriginalName(copy: string): string
    requires IsCopyName(copy)
  {
    copy[..|copy| - 4]
  }

  /** The temporary pool that shadows a built-in one. */
  function Copy(cfg: Config, awayFrom: string, name: string, pool: Pool): Pool {
    Pool(pool.requirements + [Requirement(ZONE_KEY, In, UpdatedZones(cfg, awayFrom))],
         CopiedDisruption(pool.disruption),
         Some(awayFrom),
         Some(50),
         if name == "system" then pool.taints else [],
         pool.nodeClass)
  }

  /** At most the first budget, and of it the node count. */
  function CopiedDisruption(d: Disruption): Disruption {
    Disruption(if d.budgets == [] then [] else [BareBudget(d.budgets[0])],
               BareText(d.consolidateAfter), BareText(d.consolidationPolicy))
  }

  lemma CopyNames()
    ensures forall n :: BuiltIn(n) ==>
      IsCopyName(CopyName(n)) && OriginalName(CopyName(n)) == n && !BuiltIn(CopyName(n))
    ensures forall n :: IsCopyName(n) ==> BuiltIn(OriginalName(n)) && CopyName(OriginalName(n)) == n && !BuiltIn(n)
  {
    assert CopyName("general-purpose") == "general-purpose-kss" && CopyName("system") == "system-kss";
    assert "general-purpose-kss"[..|"general-purpose-kss"| - 4] == "general-purpose";
    assert "system-kss"[..|"system-kss"| - 4] == "system";
    assert |"general-purpose-kss"| != |"general-purpose"| && |"general-purpose-kss"| != |"system"|;
    assert |"system-kss"| != |"general-purpose"| && |"system-kss"| != |"system"|;
  }

  /** The copies an update creates, as far as they are missing and not refused. */
  function Created(cluster: map<string, Pool>, refused: set<Call>): set<string> {
    set n | n in {"general-purpose-kss", "system-kss"} && OriginalName(n) in cluster && n !in cluster
            && CreateOf(n) !in refused
  }

  function AutoUpdate(cfg: Config, awayFrom: string, cluster: map<string, Pool>, refused: set<Call>)
    : map<string, Pool>
  {
    if UpdatedZones(cfg, awayFrom) == [] then cluster
    else
      map n | n in cluster.Keys + Created(cluster, refused) ::
        if n !in cluster then Copy(cfg, awayFrom, OriginalName(n), cluster[OriginalName(n)])
        else if BuiltIn(n) then cluster[n]
        else UpdateOne(cfg, awayFrom, cluster[n], SpecOf(n) !in refused, AnnotationOf(n) !in refused)
  }

  function AutoRestore(cfg: Config, awayFrom: string, cluster: map<string, Pool>, refused: set<Call>)
    : map<string, Pool>
  {
    map n | n in cluster && (IsCopyName(n) ==> DeleteOf(n) in refused) ::
      if IsCopyName(n) then cluster[n]
      else RestoreOne(cfg, awayFrom, cluster[n], SpecOf(n) !in refused, AnnotationOf(n) !in refused)
  }

  // ----- what the copies take over -----

  /** `copy` is the temporary pool of the built-in pool `original`: all requirements in
      their places, but for the values of the first zone requirement, and one more zone
      requirement at the end. */
  ghost predicate CopyOf(awayFrom: string, name: string, original: Pool, copy: Pool) {
    var first, last := FirstZone(original.requirements), |original.requirements|;
    && NonZone(copy.requirements) == NonZone(original.requirements)
    && |copy.requirements| == last + 1
    && (forall i :: 0 <= i < last && i != first ==> copy.requirements[i] == original.requirements[i])
    && (first < last ==> copy.requirements[first] ==
                         original.requirements[first].(values := copy.requirements[first].values))
    && copy.requirements[last].key == "topology.kubernetes.io/zone" && copy.requirements[last].operator == In
    && TakesOver(original.disruption.consolidateAfter, copy.disruption.consolidateAfter)
    && TakesOver(original.disruption.consolidationPolicy, copy.disruption.consolidationPolicy)
    && copy.disruption.budgets == (if original.disruption.budgets == [] then []
                                   else [Budget(original.disruption.budgets[0].nodes, map[])])
    && copy.away == Some(awayFrom) && copy.weight == Some(50) && copy.nodeClass == original.nodeClass
    && copy.taints == (if name == "system" then original.taints else [])
  }

  lemma {:induction false} NonZoneAppend(reqs: seq<Requirement>, values: seq<string>)
    ensures NonZone(reqs + [Requirement(ZONE_KEY, In, values)]) == NonZone(reqs)
  {
    if reqs == [] {
      assert reqs + [Requirement(ZONE_KEY, In, values)] == [Requirement(ZONE_KEY, In, values)];
    } else {
      assert (reqs + [Requirement(ZONE_KEY, In, values)])[1..] == reqs[1..] + [Requirement(ZONE_KEY, In, values)];
      NonZoneAppend(reqs[1..], values);
    }
  }

  /** That is what a copy is when it is created. */
  lemma FreshCopyIsCopyOf(cfg: Config, awayFrom: string, name: string, pool: Pool)
    ensures var copy := Copy(cfg, awayFrom, name, pool);
      && CopyOf(awayFrom, name, pool, copy)
      && copy.requirements[..|pool.requirements|] == pool.requirements
      && copy.requirements[|pool.requirements|].values == UpdatedZones(cfg, awayFrom)
      && FirstZone(copy.requirements) == FirstZone(pool.requirements) && HasZone(copy.requirements)
  {
    var copy := Copy(cfg, awayFrom, name, pool);
    NonZoneAppend(pool.requirements, UpdatedZones(cfg, awayFrom));
    assert copy.requirements[|pool.requirements|] == Requirement(ZONE_KEY, In, UpdatedZones(cfg, awayFrom));
    FirstZoneIs(copy.requirements, FirstZone(pool.requirements));
  }

  /** And what it is after an update in place. */
  lemma UpdatedCopyIsCopyOf(cfg: Config, awayFrom: string, name: string, pool: Pool)
    ensures CopyOf(awayFrom, name, pool, Updated(cfg, awayFrom, Copy(cfg, awayFrom, name, pool)))
  {
    var copy := Copy(cfg, awayFrom, name, pool);
    var filtered := Without(ZoneValues(copy.requirements), ZoneName(cfg, awayFrom));
    FreshCopyIsCopyOf(cfg, awayFrom, name, pool);
    SetZoneKeepsNonZone(copy.requirements, filtered);
    RewrittenCopyOf(awayFrom, name, pool, copy, filtered);
    TrimmedLaws(copy.disruption);
  }

  lemma RewrittenCopyOf(awayFrom: string, name: string, pool: Pool, copy: Pool, values: seq<string>)
    requires CopyOf(awayFrom, name, pool, copy)
    requires NonZone(SetZone(copy.requirements, values)) == NonZone(copy.requirements)
    requires FirstZone(copy.requirements) == FirstZone(pool.requirements) && HasZone(copy.requirements)
    ensures CopyOf(awayFrom, name, pool, copy.(requirements := SetZone(copy.requirements, values)))
  {
  }

  // ----- what the copies admit -----

  /** The copy admits what the original admits, among the zones to go to. */
  ghost predicate Shadows(cfg: Config, awayFrom: string, original: Pool, copy: Pool) {
    forall z :: Admits(copy.requirements, z) <==> Admits(original.requirements, z) && z in UpdatedZones(cfg, awayFrom)
  }

  lemma FreshCopyShadows(cfg: Config, awayFrom: string, name: string, pool: Pool)
    ensures Shadows(cfg, awayFrom, pool, Copy(cfg, awayFrom, name, pool))
    ensures HasZone(Copy(cfg, awayFrom, name, pool).requirements)
  {
    var copy := Copy(cfg, awayFrom, name, pool);
    var last := |pool.requirements|;
    assert copy.requirements[last] == Requirement(ZONE_KEY, In, UpdatedZones(cfg, awayFrom));
    assert forall i :: 0 <= i < last ==> copy.requirements[i] == pool.requirements[i];
    assert FirstZone(copy.requirements) <= last;
    forall z
      ensures Admits(copy.requirements, z) <==> Admits(pool.requirements, z) && z in UpdatedZones(cfg, awayFrom)
    {
      if Admits(copy.requirements, z) {
        assert Matches(In, copy.requirements[last].values, z);
      }
    }
  }

  /** The values of the first zone requirement decide whether the pool admits `name`. */
  ghost predicate Decisive(reqs: seq<Requirement>, name: string) {
    name in ZoneValues(reqs) && ZoneOperator(reqs) in {In, NotIn} && OthersAdmit(reqs, name)
  }

  /** The copy of `pool` keeps shadowing it when the event is repeated: the away zone is
      not among the zones to go to, or taking it out of the copy decides nothing. */
  ghost predicate CopyHolds(cfg: Config, awayFrom: string, pool: Pool) {
    || ZoneName(cfg, awayFrom) !in UpdatedZones(cfg, awayFrom)
    || (HasZone(pool.requirements) && !Decisive(pool.requirements, ZoneName(cfg, awayFrom)))
  }

  /** Where the copy's zone requirements stand: the original's, then the appended one. */
  lemma CopyZones(cfg: Config, awayFrom: string, name: string, pool: Pool)
    ensures var reqs := Copy(cfg, awayFrom, name, pool).requirements;
      if HasZone(pool.requirements) then
        && ZoneValues(reqs) == ZoneValues(pool.requirements) && ZoneOperator(reqs) == ZoneOperator(pool.requirements)
        && forall z :: OthersAdmit(reqs, z) <==> OthersAdmit(pool.requirements, z) && z in UpdatedZones(cfg, awayFrom)
      else
        && ZoneValues(reqs) == UpdatedZones(cfg, awayFrom) && ZoneOperator(reqs) == In
        && forall z :: OthersAdmit(reqs, z)
  {
    var reqs := Copy(cfg, awayFrom, name, pool).requirements;
    var last := |pool.requirements|;
    assert reqs[last] == Requirement(ZONE_KEY, In, UpdatedZones(cfg, awayFrom));
    assert forall i :: 0 <= i < last ==> reqs[i] == pool.requirements[i];
    FirstZoneIs(reqs, FirstZone(pool.requirements));
  }

  /** Exactly when a repeated event leaves the copy shadowing its original. */
  lemma UpdatedCopyShadowsIff(cfg: Config, awayFrom: string, name: string, pool: Pool)
    ensures Shadows(cfg, awayFrom, pool, Updated(cfg, awayFrom, Copy(cfg, awayFrom, name, pool)))
      <==> CopyHolds(cfg, awayFrom, pool)
  {
    var copy := Copy(cfg, awayFrom, name, pool);
    var reqs := copy.requirements;
    var away := ZoneName(cfg, awayFrom);
    var filtered := Without(ZoneValues(reqs), away);
    FreshCopyShadows(cfg, awayFrom, name, pool);
    CopyZones(cfg, awayFrom, name, pool);
    if UpdateRequirements(cfg, awayFrom, reqs).Some? {
      forall z
        ensures Admits(SetZone(reqs, filtered), z) <==> Matches(ZoneOperator(reqs), filtered, z) && OthersAdmit(reqs, z)
        ensures Admits(reqs, z) <==> Matches(ZoneOperator(reqs), ZoneValues(reqs), z) && OthersAdmit(reqs, z)
      {
        AdmitsSetZone(reqs, filtered, z);
        AdmitsSplit(reqs, z);
      }
      assert Updated(cfg, awayFrom, copy).requirements == SetZone(reqs, filtered);
      assert (forall z :: Admits(SetZone(reqs, filtered), z) <==> Admits(reqs, z)) <==>
             (Admits(SetZone(reqs, filtered), away) <==> Admits(reqs, away));
    }
  }

  // ----- the shifted cluster -----

  ghost predicate NoCopies(cluster: map<string, Pool>) {
    forall n :: n in cluster ==> !IsCopyName(n)
  }

  /** The copies a shift calls for. */
  function Due(cfg: Config, awayFrom: string, cluster: map<string, Pool>): set<string> {
    if UpdatedZones(cfg, awayFrom) == [] then {} else Created(cluster, {})
  }

  /** During the shift: the built-in pools are exactly as they were, their copies
      exist, fresh or updated, and every other pool is as one or two updates leave it. */
  ghost predicate Shifted(cfg: Config, awayFrom: string, before: map<string, Pool>, now: map<string, Pool>) {
    && now.Keys == before.Keys + Due(cfg, awayFrom, before)
    && (forall n :: n in before ==>
          if BuiltIn(n) then now[n] == before[n] else ShiftedTo(cfg, awayFrom, before[n], now[n]))
    && (forall n :: n in Due(cfg, awayFrom, before) ==>
          var copy := Copy(cfg, awayFrom, OriginalName(n), before[OriginalName(n)]);
          now[n] == copy || now[n] == Updated(cfg, awayFrom, copy))
  }

  /** While a shift lasts, `general-purpose` and `system` are untouched and each has its
      copy, under its own name and `-kss`, admitting exactly its zones among those to go to. */
  lemma ShiftedShadows(cfg: Config, awayFrom: string, before: map<string, Pool>, now: map<string, Pool>, name: string)
    requires UpdatedZones(cfg, awayFrom) != [] && NoCopies(before) && Shifted(cfg, awayFrom, before, now)
    requires BuiltIn(name) && name in before
    ensures name in now && now[name] == before[name] && CopyName(name) in now
    ensures CopyHolds(cfg, awayFrom, before[name]) ==> Shadows(cfg, awayFrom, before[name], now[CopyName(name)])
    ensures CopyOf(awayFrom, name, before[name], now[CopyName(name)])
    ensures name == "general-purpose" || name == "system"
    ensures CopyName(name) == if name == "system" then "system-kss" else "general-purpose-kss"
  {
    FreshCopyIsCopyOf(cfg, awayFrom, name, before[name]);
    UpdatedCopyIsCopyOf(cfg, awayFrom, name, before[name]);
    CopyNames();
    assert CopyName(name) in Created(before, {});
    FreshCopyShadows(cfg, awayFrom, name, before[name]);
    UpdatedCopyShadowsIff(cfg, awayFrom, name, before[name]);
  }

  /** After a restore: the copies are gone, the built-in pools are as before the shift,
      and any other pool is as one or more restores leave it. */
  ghost predicate Unshifted(cfg: Config, awayFrom: string, before: map<string, Pool>, now: map<string, Pool>,
                            most: nat) {
    && now.Keys == before.Keys
    && forall n :: n in before ==>
         if BuiltIn(n) then now[n] == before[n]
         else exists mid :: ShiftedTo(cfg, awayFrom, before[n], mid) && RestoredBy(cfg, awayFrom, mid, now[n], most)
  }

  lemma NoZonesNoUpdate(cfg: Config, awayFrom: string)
    ensures UpdatedZones(cfg, awayFrom) == [] ==> forall pool :: Updated(cfg, awayFrom, pool) == pool
  {
  }

  lemma FirstUpdate(cfg: Config, awayFrom: string, before: map<string, Pool>)
    requires NoCopies(before)
    ensures Shifted(cfg, awayFrom, before, AutoUpdate(cfg, awayFrom, before, {}))
  {
    CopyNames();
    NoZonesNoUpdate(cfg, awayFrom);
  }

  lemma NamesAreBack(cfg: Config, awayFrom: string, before: map<string, Pool>, shifted: map<string, Pool>)
    requires NoCopies(before) && shifted.Keys == before.Keys + Due(cfg, awayFrom, before)
    ensures AutoRestore(cfg, awayFrom, shifted, {}).Keys == before.Keys
  {
    CopyNames();
  }

  lemma FirstRestore(cfg: Config, awayFrom: string, before: map<string, Pool>, shifted: map<string, Pool>)
    requires NoCopies(before) && (forall n :: n in before ==> Settled(before[n]))
    requires Shifted(cfg, awayFrom, before, shifted)
    ensures Unshifted(cfg, awayFrom, before, AutoRestore(cfg, awayFrom, shifted, {}), 1)
  {
    var now := AutoRestore(cfg, awayFrom, shifted, {});
    NamesAreBack(cfg, awayFrom, before, shifted);
    CopyNames();
    forall n | n in before && !BuiltIn(n)
      ensures n in now && RestoredBy(cfg, awayFrom, shifted[n], now[n], 1)
    {
      RestoreOnceIsRestoredBy(cfg, awayFrom, shifted[n]);
    }
  }
}
