/** The built-in characters. Each character's code creates its nodes, then attaches every
    candidate list through the three setters; here that sequence of setter calls is the
    character's table (module PonyTables) and `Build` performs it. Each builder's
    postcondition says that the result is exactly the character's table, so every list and its
    weights are known, and that it is a valid character. */
module BuiltInPonies {
  import opened Ponies
  import opened PonyTables

  /** Creates one node per row (row order), then attaches each node's three candidate lists,
      with positions resolved to the nodes of the first pass; last, the start list. */
  method Build(t: Table) returns (p: Pony)
    requires Shaped(t)
    ensures fresh(p) && forall a :: a in p.actions ==> fresh(a)
    ensures Realizes(p, t)
  {
    var nodes: seq<PonyAction> := [];
    var i := 0;
    while i < |t.clips|
      invariant 0 <= i <= |t.clips| && |nodes| == i
      invariant Distinct(nodes)
      invariant forall k :: 0 <= k < i ==> fresh(nodes[k])
      invariant forall k :: 0 <= k < i ==>
        nodes[k].clip == t.clips[k] && nodes[k].affinity == t.tags[k]
    {
      var node := new PonyAction(t.clips[i], t.tags[i]);
      nodes := nodes + [node];
      i := i + 1;
    }

    i := 0;
    while i < |nodes|
      invariant 0 <= i <= |nodes|
      invariant forall k :: 0 <= k < |nodes| ==> fresh(nodes[k])
      invariant forall k :: i <= k < |nodes| ==> nodes[k].clip == t.clips[k] && nodes[k].affinity == t.tags[k]
      invariant forall k :: 0 <= k < i ==> Wired(nodes, k, t)
    {
      nodes[i].SetNextWaiting(Targets(nodes, t.waiting[i]));
      nodes[i].SetNextMoving(Targets(nodes, t.moving[i]));
      nodes[i].SetNextDrag(Targets(nodes, t.drag[i]));
      i := i + 1;
    }

    p := new Pony(nodes, Targets(nodes, t.start));
  }

  method MakeDefaultPony(standId: ClipId, trotId: ClipId) returns (p: Pony)
    ensures fresh(p) && forall a :: a in p.actions ==> fresh(a)
    ensures Realizes(p, DefaultPonyTable(standId, trotId)) && Valid(p)
  {
    p := Build(DefaultPonyTable(standId, trotId));
    RealizesValid(p, DefaultPonyTable(standId, trotId));
  }

  method MakeDefaultFlyer(standId: ClipId, trotId: ClipId, flyId: ClipId) returns (p: Pony)
    ensures fresh(p) && forall a :: a in p.actions ==> fresh(a)
    ensures Realizes(p, DefaultFlyerTable(standId, trotId, flyId)) && Valid(p)
  {
    p := Build(DefaultFlyerTable(standId, trotId, flyId));
    RealizesValid(p, DefaultFlyerTable(standId, trotId, flyId));
  }

  method MakeAppleBloom() returns (p: Pony)
    ensures fresh(p) && forall a :: a in p.actions ==> fresh(a)
    ensures Realizes(p, DefaultPonyTable("ab_stand", "ab_trot")) && Valid(p)
  {
    p := MakeDefaultPony("ab_stand", "ab_trot");
  }

  method MakeApplejack() returns (p: Pony)
    ensures fresh(p) && forall a :: a in p.actions ==> fresh(a)
    ensures Realizes(p, StandTrotDragTable("aj_stand", "aj_trot", "aj_drag")) && Valid(p)
  {
    p := Build(StandTrotDragTable("aj_stand", "aj_trot", "aj_drag"));
    RealizesValid(p, StandTrotDragTable("aj_stand", "aj_trot", "aj_drag"));
  }

  method MakeBabsSeed() returns (p: Pony)
    ensures fresh(p) && forall a :: a in p.actions ==> fresh(a)
    ensures Realizes(p, DefaultPonyTable("babs_stand", "babs_trot")) && Valid(p)
  {
    p := MakeDefaultPony("babs_stand", "babs_trot");
  }

  method MakeBerryPunch() returns (p: Pony)
    ensures fresh(p) && forall a :: a in p.actions ==> fresh(a)
    ensures Realizes(p, BerryPunchTable()) && Valid(p)
  {
    p := Build(BerryPunchTable());
    RealizesValid(p, BerryPunchTable());
  }

  method MakeBigMcIntosh() returns (p: Pony)
    ensures fresh(p) && forall a :: a in p.actions ==> fresh(a)
    ensures Realizes(p, DefaultPonyTable("bigmac_stand", "bigmac_trot")) && Valid(p)
  {
    p := MakeDefaultPony("bigmac_stand", "bigmac_trot");
  }

  method MakeDerpyHooves() returns (p: Pony)
    ensures fresh(p) && forall a :: a in p.actions ==> fresh(a)
    ensures Realizes(p, DerpyHoovesTable()) && Valid(p)
  {
    p := Build(DerpyHoovesTable());
    RealizesValid(p, DerpyHoovesTable());
  }

  method MakeDoctorHooves() returns (p: Pony)
    ensures fresh(p) && forall a :: a in p.actions ==> fresh(a)
    ensures Realizes(p, DefaultPonyTable("doctor_stand", "doctor_trot")) && Valid(p)
  {
    p := MakeDefaultPony("doctor_stand", "doctor_trot");
  }

  method MakeFluttershy() returns (p: Pony)
    ensures fresh(p) && forall a :: a in p.actions ==> fresh(a)
    ensures Realizes(p, FluttershyTable()) && Valid(p)
  {
    p := Build(FluttershyTable());
    RealizesValid(p, FluttershyTable());
  }

  method MakeGilda() returns (p: Pony)
    ensures fresh(p) && forall a :: a in p.actions ==> fresh(a)
    ensures Realizes(p, DefaultFlyerTable("gilda_stand", "gilda_walk", "gilda_fly")) && Valid(p)
  {
    p := MakeDefaultFlyer("gilda_stand", "gilda_walk", "gilda_fly");
  }

  method MakeLyraHeartstrings() returns (p: Pony)
    ensures fresh(p) && forall a :: a in p.actions ==> fresh(a)
    ensures Realizes(p, LyraHeartstringsTable()) && Valid(p)
  {
    p := Build(LyraHeartstringsTable());
    RealizesValid(p, LyraHeartstringsTable());
  }

  method MakeMinuette() returns (p: Pony)
    ensures fresh(p) && forall a :: a in p.actions ==> fresh(a)
    ensures Realizes(p, DefaultPonyTable("minuette_stand", "minuette_trot")) && Valid(p)
  {
    p := MakeDefaultPony("minuette_stand", "minuette_trot");
  }

  method MakeOctavia() returns (p: Pony)
    ensures fresh(p) && forall a :: a in p.actions ==> fresh(a)
    ensures Realizes(p, DefaultPonyTable("octavia_stand", "octavia_trot")) && Valid(p)
  {
    p := MakeDefaultPony("octavia_stand", "octavia_trot");
  }

  method MakePinkiePie() returns (p: Pony)
    ensures fresh(p) && forall a :: a in p.actions ==> fresh(a)
    ensures Realizes(p, PinkiePieTable()) && Valid(p)
  {
    p := Build(PinkiePieTable());
    RealizesValid(p, PinkiePieTable());
  }

  method MakePrincessCadance() returns (p: Pony)
    ensures fresh(p) && forall a :: a in p.actions ==> fresh(a)
    ensures Realizes(p, DefaultFlyerTable("cadance_stand", "cadance_walk", "cadance_fly")) && Valid(p)
  {
    p := MakeDefaultFlyer("cadance_stand", "cadance_walk", "cadance_fly");
  }

  method MakePrincessCelestia() returns (p: Pony)
    ensures fresh(p) && forall a :: a in p.actions ==> fresh(a)
    ensures Realizes(p, DefaultFlyerTable("celestia_stand", "celestia_walk", "celestia_fly")) && Valid(p)
  {
    p := MakeDefaultFlyer("celestia_stand", "celestia_walk", "celestia_fly");
  }

  method MakePrincessLuna() returns (p: Pony)
    ensures fresh(p) && forall a :: a in p.actions ==> fresh(a)
    ensures Realizes(p, DefaultFlyerTable("luna_stand", "luna_walk", "luna_fly")) && Valid(p)
  {
    p := MakeDefaultFlyer("luna_stand", "luna_walk", "luna_fly");
  }

  method MakeRainbowDash() returns (p: Pony)
    ensures fresh(p) && forall a :: a in p.actions ==> fresh(a)
    ensures Realizes(p, RainbowDashTable()) && Valid(p)
  {
    p := Build(RainbowDashTable());
    RealizesValid(p, RainbowDashTable());
  }

  method MakeRarity() returns (p: Pony)
    ensures fresh(p) && forall a :: a in p.actions ==> fresh(a)
    ensures Realizes(p, StandTrotDragTable("rarity_stand", "rarity_trot", "rarity_drag")) && Valid(p)
  {
    p := Build(StandTrotDragTable("rarity_stand", "rarity_trot", "rarity_drag"));
    RealizesValid(p, StandTrotDragTable("rarity_stand", "rarity_trot", "rarity_drag"));
  }

  method MakeScootaloo() returns (p: Pony)
    ensures fresh(p) && forall a :: a in p.actions ==> fresh(a)
    ensures Realizes(p, DefaultPonyTable("scootaloo_stand", "scootaloo_trot")) && Valid(p)
  {
    p := MakeDefaultPony("scootaloo_stand", "scootaloo_trot");
  }

  method MakeShiningArmor() returns (p: Pony)
    ensures fresh(p) && forall a :: a in p.actions ==> fresh(a)
    ensures Realizes(p, DefaultPonyTable("sa_stand", "sa_walk")) && Valid(p)
  {
    p := MakeDefaultPony("sa_stand", "sa_walk");
  }

  method MakeSoarin() returns (p: Pony)
    ensures fresh(p) && forall a :: a in p.actions ==> fresh(a)
    ensures Realizes(p, DefaultFlyerTable("soarin_stand", "soarin_trot", "soarin_fly")) && Valid(p)
  {
    p := MakeDefaultFlyer("soarin_stand", "soarin_trot", "soarin_fly");
  }

  method MakeSpike() returns (p: Pony)
    ensures fresh(p) && forall a :: a in p.actions ==> fresh(a)
    ensures Realizes(p, DefaultPonyTable("spike_stand", "spike_walk")) && Valid(p)
  {
    p := MakeDefaultPony("spike_stand", "spike_walk");
  }

  method MakeSpitfire() returns (p: Pony)
    ensures fresh(p) && forall a :: a in p.actions ==> fresh(a)
    ensures Realizes(p, DefaultFlyerTable("spitfire_stand", "spitfire_trot", "spitfire_fly")) && Valid(p)
  {
    p := MakeDefaultFlyer("spitfire_stand", "spitfire_trot", "spitfire_fly");
  }

  method MakeStarlightGlimmer() returns (p: Pony)
    ensures fresh(p) && forall a :: a in p.actions ==> fresh(a)
    ensures Realizes(p, DefaultPonyTable("sg_stand", "sg_trot")) && Valid(p)
  {
    p := MakeDefaultPony("sg_stand", "sg_trot");
  }

  method MakeSunsetShimmer() returns (p: Pony)
    ensures fresh(p) && forall a :: a in p.actions ==> fresh(a)
    ensures Realizes(p, SunsetShimmerTable()) && Valid(p)
    ensures PortsHonoured(p)
  {
    p := Build(SunsetShimmerTable());
    RealizesValid(p, SunsetShimmerTable());
    RealizesPorting(p, SunsetShimmerTable());
  }

  method MakeSweetieBelle() returns (p: Pony)
    ensures fresh(p) && forall a :: a in p.actions ==> fresh(a)
    ensures Realizes(p, DefaultPonyTable("sb_stand", "sb_trot")) && Valid(p)
  {
    p := MakeDefaultPony("sb_stand", "sb_trot");
  }

  method MakeSweetieDrops() returns (p: Pony)
    ensures fresh(p) && forall a :: a in p.actions ==> fresh(a)
    ensures Realizes(p, DefaultPonyTable("sd_stand", "sd_trot")) && Valid(p)
  {
    p := MakeDefaultPony("sd_stand", "sd_trot");
  }

  /** Besides the table: teleport-out moves only to teleport-in, and the winged actions
      (positions 0-4) and the unicorn actions (positions 5-9) never lead into each other. */
  method MakeTwilightSparkle() returns (p: Pony)
    ensures fresh(p) && forall a :: a in p.actions ==> fresh(a)
    ensures Realizes(p, TwilightSparkleTable()) && Valid(p) && PortsHonoured(p)
    ensures |p.actions| == 10
    ensures forall i :: 0 <= i < 5 ==> Enclosed(p.actions[i], p.actions[..5])
    ensures forall i :: 5 <= i < 10 ==> Enclosed(p.actions[i], p.actions[5..])
  {
    p := Build(TwilightSparkleTable());
    RealizesValid(p, TwilightSparkleTable());
    TwilightSparklePortsPaired();
    RealizesPorting(p, TwilightSparkleTable());
    RealizesConfined(p, TwilightSparkleTable(), 0, 5);
    RealizesConfined(p, TwilightSparkleTable(), 5, 10);
    assert p.actions[0..5] == p.actions[..5] && p.actions[5..10] == p.actions[5..];
  }

  method MakeVinylScratch() returns (p: Pony)
    ensures fresh(p) && forall a :: a in p.actions ==> fresh(a)
    ensures Realizes(p, VinylScratchTable()) && Valid(p)
  {
    p := Build(VinylScratchTable());
    RealizesValid(p, VinylScratchTable());
  }

  method MakeZecora() returns (p: Pony)
    ensures fresh(p) && forall a :: a in p.actions ==> fresh(a)
    ensures Realizes(p, DefaultPonyTable("zecora_stand", "zecora_trot")) && Valid(p)
  {
    p := MakeDefaultPony("zecora_stand", "zecora_trot");
  }

  /** Fluttershy idles on the ground three times as often as she hovers, and flies off on one
      moving choice in four. */
  lemma FluttershyWeights(p: Pony)
    requires Realizes(p, FluttershyTable())
    ensures |p.actions| == 4
    ensures multiset(p.actions[2].nextWaiting)[p.actions[0]] == 3
    ensures multiset(p.actions[2].nextWaiting)[p.actions[2]] == 1
    ensures multiset(p.actions[0].nextMoving)[p.actions[1]] == 3
    ensures multiset(p.actions[0].nextMoving)[p.actions[2]] == 1
  {
    RealizesWeight(p, FluttershyTable(), 2, 0);
    RealizesWeight(p, FluttershyTable(), 2, 2);
    RealizesWeight(p, FluttershyTable(), 0, 1);
    RealizesWeight(p, FluttershyTable(), 0, 2);
  }

  /** Rainbow Dash is the opposite: three choices in four, waiting or moving, are flying. */
  lemma RainbowDashWeights(p: Pony)
    requires Realizes(p, RainbowDashTable())
    ensures |p.actions| == 4
    ensures multiset(p.actions[2].nextWaiting)[p.actions[0]] == 1
    ensures multiset(p.actions[2].nextWaiting)[p.actions[2]] == 3
    ensures multiset(p.actions[0].nextMoving)[p.actions[1]] == 1
    ensures multiset(p.actions[0].nextMoving)[p.actions[2]] == 3
  {
    RealizesWeight(p, RainbowDashTable(), 2, 0);
    RealizesWeight(p, RainbowDashTable(), 2, 2);
    RealizesWeight(p, RainbowDashTable(), 0, 1);
    RealizesWeight(p, RainbowDashTable(), 0, 2);
  }

  /** Sunset Shimmer trots on three moving choices in four and teleports on the fourth. */
  lemma SunsetShimmerWeights(p: Pony)
    requires Realizes(p, SunsetShimmerTable())
    ensures |p.actions| == 4
    ensures multiset(p.actions[0].nextMoving)[p.actions[1]] == 3
    ensures multiset(p.actions[0].nextMoving)[p.actions[2]] == 1
    ensures multiset(p.actions[0].nextMoving)[p.actions[3]] == 0
  {
    RealizesWeight(p, SunsetShimmerTable(), 0, 1);
    RealizesWeight(p, SunsetShimmerTable(), 0, 2);
    RealizesWeight(p, SunsetShimmerTable(), 0, 3);
  }

  /** makeDefaultPony, over the nodes themselves: waiting always leads to stand, moving and
      dragging always to trot, and a new instance starts trotting. */
  lemma DefaultPonyEdges(p: Pony, standId: ClipId, trotId: ClipId)
    requires Realizes(p, DefaultPonyTable(standId, trotId))
    ensures |p.actions| == 2
    ensures p.actions[0].clip == standId && p.actions[1].clip == trotId
    ensures forall a :: a in p.actions ==>
      a.nextWaiting == [p.actions[0]] && a.nextMoving == [p.actions[1]] && a.nextDrag == [p.actions[1]]
    ensures p.start == [p.actions[1]]
  {
    var t := DefaultPonyTable(standId, trotId);
    assert Wired(p.actions, 0, t) && Wired(p.actions, 1, t);
    assert Targets(p.actions, [0]) == [p.actions[0]];
    assert Targets(p.actions, [1]) == [p.actions[1]];
  }

  /** makeDefaultFlyer, over the nodes themselves: only a flying node may keep flying while
      waiting, a grounded node may take off when moving, a flying node keeps flying when
      moving, every node flies when dragged, and a new instance trots or flies. */
  lemma DefaultFlyerEdges(p: Pony, standId: ClipId, trotId: ClipId, flyId: ClipId)
    requires Realizes(p, DefaultFlyerTable(standId, trotId, flyId))
    ensures |p.actions| == 3
    ensures p.actions[0].clip == standId && p.actions[1].clip == trotId && p.actions[2].clip == flyId
    ensures p.actions[0].nextWaiting == [p.actions[0]] && p.actions[1].nextWaiting == [p.actions[0]]
    ensures p.actions[2].nextWaiting == [p.actions[0], p.actions[2]]
    ensures p.actions[0].nextMoving == [p.actions[1], p.actions[2]]
    ensures p.actions[1].nextMoving == [p.actions[1], p.actions[2]]
    ensures p.actions[2].nextMoving == [p.actions[2]]
    ensures forall a :: a in p.actions ==> a.nextDrag == [p.actions[2]]
    ensures p.start == [p.actions[1], p.actions[2]]
  {
    var t := DefaultFlyerTable(standId, trotId, flyId);
    assert Wired(p.actions, 0, t) && Wired(p.actions, 1, t) && Wired(p.actions, 2, t);
    assert Targets(p.actions, [0]) == [p.actions[0]];
    assert Targets(p.actions, [2]) == [p.actions[2]];
    assert Targets(p.actions, [0, 2]) == [p.actions[0], p.actions[2]];
    assert Targets(p.actions, [1, 2]) == [p.actions[1], p.actions[2]];
  }
}
