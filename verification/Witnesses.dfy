/** One concrete input for each law that does not hold unconditionally.  The exact
    conditions are the lemmas whose names end in `Iff`. */
module Witnesses {
  import opened Sequences
  import opened Pools
  import opened AutoMode
  import Informer
  import NodePasses
  import PoolHandlers

  /** Zone IDs `1`, `2` and `3` are the zones `a`, `b` and `c`. */
  const Cluster3 := Config(map["1" := "a", "2" := "b", "3" := "c"], ["a", "b", "c"], false)

  const Cluster1 := Config(map["1" := "a"], ["a"], false)

  const NoSettings := Disruption([], Some("0s"), Some("WhenEmpty"))

  function Sample(reqs: seq<Requirement>): Pool {
    Pool(reqs, NoSettings, None, None, [], NodeClassRef("", "", ""))
  }

  function Zones(operator: Operator, values: seq<string>): seq<Requirement> {
    [Requirement(ZONE_KEY, operator, values)]
  }

  /** The repository's example event names the zone in its metadata only. */
  lemma ExampleEvent()
    ensures var event := PoolHandlers.Event("Autoshift In Progress", "", "use1-az1");
      PoolHandlers.Dispatch(event) == Some(PoolHandlers.Update) && PoolHandlers.AwayOf(event) == "use1-az1"
  {
    PoolHandlers.EventsAre(PoolHandlers.Event("Autoshift In Progress", "", "use1-az1"));
  }

  /** An update lets the away zone into a pool that had ruled it out. */
  lemma NotInLetsZoneIn()
    ensures var pool := Sample(Zones(NotIn, ["a"]));
      !Admits(pool.requirements, "a") && Admits(Updated(Cluster3, "1", pool).requirements, "a")
  {
    var reqs := Zones(NotIn, ["a"]);
    FirstZoneIs(reqs, 0);
    assert reqs[0].key == ZONE_KEY && !Matches(NotIn, reqs[0].values, "a");
    assert Without(["a"], "a") == [];
    assert "b" in Cluster3.clusterZones;
    ShiftableZones(Cluster3, "1");
    assert Updated(Cluster3, "1", Sample(reqs)).requirements == Zones(NotIn, []);
  }

  /** A pool without zone requirement is confined to the away zone, and by a repeated
      event to no zone at all. */
  lemma OnlyZoneIsTheAwayZone()
    ensures var once := Updated(Cluster1, "1", Sample([]));
      once.requirements == Zones(In, ["a"]) && Updated(Cluster1, "1", once).requirements == Zones(In, [])
  {
    assert Without(["a"], "a") == [];
    assert UpdatedZones(Cluster1, "1") == ["a"];
    FirstZoneIs(Zones(In, ["a"]), 0);
  }

  /** With the annotation patch refused, the restore does not know of the shift. */
  lemma RefusedAnnotationLosesZone()
    ensures var pool := Sample(Zones(In, ["a"]));
      ZoneValues(RestoreOne(Cluster3, "1", UpdateOne(Cluster3, "1", pool, true, false), true, true).requirements) == []
  {
    assert Without(["a"], "a") == [];
    assert "b" in Cluster3.clusterZones;
    ShiftableZones(Cluster3, "1");
    FirstZoneIs(Zones(In, ["a"]), 0);
    FirstZoneIs(Zones(In, []), 0);
  }

  /** A pool left annotated by an earlier shift gains a zone it never listed. */
  lemma StaleAnnotationAddsZone()
    ensures var pool := Sample(Zones(In, ["b"])).(away := Some("1"));
      ZoneValues(Restored(Cluster3, "1", Updated(Cluster3, "1", pool)).requirements) == ["b", "a"]
  {
    FirstZoneIs(Zones(In, ["b"]), 0);
    FirstZoneIs(Zones(In, ["b", "a"]), 0);
    assert ["b"] + ["a"] == ["b", "a"];
  }

  /** Of two overlapping shifts the one that ends last loses its zone. */
  lemma OverlapLosesZone()
    ensures var both := Updated(Cluster3, "2", Updated(Cluster3, "1", Sample(Zones(In, ["a", "b", "c"]))));
      "b" !in ZoneValues(Restored(Cluster3, "2", Restored(Cluster3, "1", both)).requirements)
  {
    var pool := Sample(Zones(In, ["a", "b", "c"]));
    FirstZoneIs(pool.requirements, 0);
    var both := Updated(Cluster3, "2", Updated(Cluster3, "1", pool));
    BothUpdates(Cluster3, "1", "2", pool);
    assert "b" !in ZoneValues(both.requirements) && RestoreName(Cluster3, "1") == "a";
    BothRestores(Cluster3, "1", "2", both);
  }

  /** So does a pool that had no zone requirement. */
  lemma OverlapLosesAddedZone()
    ensures var both := Updated(Cluster3, "2", Updated(Cluster3, "1", Sample([])));
      !SameAdmitted(Cluster3, Sample([]), Restored(Cluster3, "2", Restored(Cluster3, "1", both)))
  {
    assert Cluster3.clusterZones[1] == "b";
    OverlapAddedIff(Cluster3, "1", "2", true, Sample([]));
  }

  /** A shift away from an unknown zone that is not taken back: the empty name is
      listed, the update takes it out, and the restore puts the raw ID in. */
  lemma UnknownZoneIsNotTakenBack()
    ensures var pool := Sample(Zones(In, ["", "a"]));
      !Recovered(Cluster3, pool, Restored(Cluster3, "9", Updated(Cluster3, "9", pool)))
  {
    var pool := Sample(Zones(In, ["", "a"]));
    FirstZoneIs(pool.requirements, 0);
    assert OthersAdmit(pool.requirements, "") && OthersAdmit(pool.requirements, "9");
    assert pool.requirements[0].values[0] == "" && "" in ZoneValues(pool.requirements);
    UpdateIdempotentIff(Cluster3, "9", pool);
    UnrecoverableTwice(Cluster3, "9", pool);
  }

  /** A budget loses its schedule for good. */
  lemma ScheduleIsLost()
    ensures var settings := Disruption([Budget("10%", map["schedule" := "@daily"])], Some("0s"), Some("WhenEmpty"));
      var pool := Sample([]).(disruption := settings);
      Restored(Cluster3, "1", Updated(Cluster3, "1", pool)).disruption.budgets == [Budget("10%", map[])]
  {
    assert "b" in Cluster3.clusterZones;
    ShiftableZones(Cluster3, "1");
  }

  /** The repeated event empties the copy of a pool without zone requirement. */
  lemma CopyIsEmptied()
    ensures var copy := Copy(Cluster1, "1", "system", Sample([]));
      Admits(copy.requirements, "a") && !Admits(Updated(Cluster1, "1", copy).requirements, "a")
  {
    assert Without(["a"], "a") == [];
    assert UpdatedZones(Cluster1, "1") == ["a"];
    var copy := Copy(Cluster1, "1", "system", Sample([]));
    assert copy.requirements == Zones(In, ["a"]);
    FirstZoneIs(copy.requirements, 0);
    assert Updated(Cluster1, "1", copy).requirements == Zones(In, []);
    assert Zones(In, [])[0].key == ZONE_KEY && !Matches(In, Zones(In, [])[0].values, "a");
  }

  /** An operator's cordon does not survive a shift. */
  lemma CordonIsLost()
    ensures NodePasses.AfterPass(NodePasses.Unprotect, map["n" := NodePasses.Node(map[], true, [])], {"n"}, {})["n"]
            == NodePasses.Node(map[], false, [])
  {
  }

  /** Nor does a zonal-shift taint that was there before. */
  lemma TaintIsLost()
    ensures var node := NodePasses.Node(map[], false, [Taint(NodePasses.ZONAL_SHIFT_TAINT_KEY, "b", "NoSchedule")]);
      NodePasses.UntaintPass(map["n" := node], {"n"}, {})["n"].taints == []
  {
  }

  /** The two label readers at odds. */
  lemma EmptyTopologyLabel()
    ensures var labels := map[Informer.TOPOLOGY_LABEL := "", Informer.LEGACY_LABEL := "a"];
      Informer.EventZone(labels) == "a" && Informer.ListZone(labels) == ""
  {
    assert Informer.TOPOLOGY_LABEL[0] == 't' && Informer.LEGACY_LABEL[0] == 'f';
  }
}
