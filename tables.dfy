/** The built-in characters as data. A `Table` names each action by its position in the
    character's action array and gives, column by column, what the character's code passes to
    the setters: the clip and tag of each action, then the waiting, moving and drag candidate
    lists of each action, then the start list. `Realizes` ties a built object graph to its
    table; the lemmas here carry the table's properties (closure, weights, porting, separation)
    over to the objects. */
module PonyTables {
  import opened Ponies

  datatype Table = Table(
    clips: seq<ClipId>,
    tags: seq<Affinity>,
    waiting: seq<seq<nat>>,
    moving: seq<seq<nat>>,
    drag: seq<seq<nat>>,
    start: seq<nat>)

  /** Every column has one entry per action. */
  predicate Shaped(t: Table)
  {
    |t.tags| == |t.clips| && |t.waiting| == |t.clips| && |t.moving| == |t.clips| && |t.drag| == |t.clips|
  }

  /** A candidate list of a table: non-empty, and every position names an action. */
  predicate InRange(idx: seq<nat>, n: nat)
  {
    |idx| > 0 && forall k :: 0 <= k < |idx| ==> idx[k] < n
  }

  predicate ColumnInRange(lists: seq<seq<nat>>, n: nat)
  {
    forall i :: 0 <= i < |lists| ==> InRange(lists[i], n)
  }

  /** Closure and non-emptiness, stated on positions. */
  predicate WellFormed(t: Table)
  {
    Shaped(t) &&
    InRange(t.start, |t.clips|) &&
    ColumnInRange(t.waiting, |t.clips|) &&
    ColumnInRange(t.moving, |t.clips|) &&
    ColumnInRange(t.drag, |t.clips|)
  }

  /** Porting: the moving list of every teleport-out action is a single teleport-in action. */
  predicate PortsPaired(t: Table)
    requires Shaped(t)
  {
    forall i :: 0 <= i < |t.clips| && t.tags[i] == PortOut ==>
      |t.moving[i]| == 1 && t.moving[i][0] < |t.clips| && t.tags[t.moving[i][0]] == PortIn
  }

  /** Every position in `idx` lies in [lo, hi). */
  predicate Between(idx: seq<nat>, lo: nat, hi: nat)
  {
    forall k :: 0 <= k < |idx| ==> lo <= idx[k] < hi
  }

  predicate ColumnConfined(lists: seq<seq<nat>>, lo: nat, hi: nat)
  {
    forall i :: lo <= i < hi && i < |lists| ==> Between(lists[i], lo, hi)
  }

  /** The actions at positions [lo, hi) form a sub-graph that no edge leaves. */
  predicate Confined(t: Table, lo: nat, hi: nat)
  {
    ColumnConfined(t.waiting, lo, hi) && ColumnConfined(t.moving, lo, hi) && ColumnConfined(t.drag, lo, hi)
  }

  /** The node at position `i`, or null where `i` names no node. */
  function At(nodes: seq<PonyAction>, i: nat): PonyAction?
  {
    if i < |nodes| then nodes[i] else null
  }

  /** The candidate list that a list of positions denotes over the built nodes. */
  function Targets(nodes: seq<PonyAction>, idx: seq<nat>): seq<PonyAction?>
  {
    seq(|idx|, k requires 0 <= k < |idx| => At(nodes, idx[k]))
  }

  /** Node `i` carries the clip, the tag and the three candidate lists of action `i` of `t`. */
  ghost predicate Wired(nodes: seq<PonyAction>, i: nat, t: Table)
    requires i < |nodes| && Shaped(t) && i < |t.clips|
    reads nodes[i]
  {
    nodes[i].clip == t.clips[i] &&
    nodes[i].affinity == t.tags[i] &&
    nodes[i].nextWaiting == Targets(nodes, t.waiting[i]) &&
    nodes[i].nextMoving == Targets(nodes, t.moving[i]) &&
    nodes[i].nextDrag == Targets(nodes, t.drag[i])
  }

  /** The object graph `p` is exactly table `t`: one distinct node per action, in table order,
      with the action's clip and tag, and every candidate list (and the start list) the table's
      positions mapped to nodes, keeping order and repetitions. */
  ghost predicate Realizes(p: Pony, t: Table)
    reads p, set a | a in p.actions
  {
    Shaped(t) &&
    |p.actions| == |t.clips| &&
    Distinct(p.actions) &&
    p.start == Targets(p.actions, t.start) &&
    forall i :: 0 <= i < |t.clips| ==> Wired(p.actions, i, t)
  }

  lemma TargetsInto(nodes: seq<PonyAction>, idx: seq<nat>)
    requires InRange(idx, |nodes|)
    ensures EdgesInto(Targets(nodes, idx), nodes)
  {
  }

  /** A graph built to a well-formed table is a valid character. */
  lemma RealizesValid(p: Pony, t: Table)
    requires Realizes(p, t) && WellFormed(t)
    ensures Valid(p)
  {
    TargetsInto(p.actions, t.start);
    forall a | a in p.actions
      ensures EdgesInto(a.nextWaiting, p.actions)
      ensures EdgesInto(a.nextMoving, p.actions)
      ensures EdgesInto(a.nextDrag, p.actions)
    {
      var i :| 0 <= i < |p.actions| && p.actions[i] == a;
      assert Wired(p.actions, i, t);
      TargetsInto(p.actions, t.waiting[i]);
      TargetsInto(p.actions, t.moving[i]);
      TargetsInto(p.actions, t.drag[i]);
    }
  }

  /** Over distinct nodes, node `j` appears in a denoted list exactly as often as position `j`
      appears in the table's list: building keeps the weights. */
  lemma {:induction false} TargetsWeight(nodes: seq<PonyAction>, idx: seq<nat>, j: nat)
    requires Distinct(nodes) && j < |nodes|
    requires forall k :: 0 <= k < |idx| ==> idx[k] < |nodes|
    ensures multiset(Targets(nodes, idx))[nodes[j]] == multiset(idx)[j]
  {
    if idx != [] {
      var r := Targets(nodes, idx);
      assert r == [nodes[idx[0]]] + Targets(nodes, idx[1..]);
      assert idx == [idx[0]] + idx[1..];
      TargetsWeight(nodes, idx[1..], j);
      assert (nodes[idx[0]] == nodes[j]) == (idx[0] == j);
    }
  }

  /** The weights of a built character are the weights of its table, in every context. */
  lemma RealizesWeight(p: Pony, t: Table, i: nat, j: nat)
    requires Realizes(p, t) && WellFormed(t) && i < |t.clips| && j < |t.clips|
    ensures multiset(p.actions[i].nextWaiting)[p.actions[j]] == multiset(t.waiting[i])[j]
    ensures multiset(p.actions[i].nextMoving)[p.actions[j]] == multiset(t.moving[i])[j]
    ensures multiset(p.actions[i].nextDrag)[p.actions[j]] == multiset(t.drag[i])[j]
  {
    assert Wired(p.actions, i, t);
    TargetsWeight(p.actions, t.waiting[i], j);
    TargetsWeight(p.actions, t.moving[i], j);
    TargetsWeight(p.actions, t.drag[i], j);
  }

  /** In a graph built to a table that pairs its ports, a teleport-out node moves only to its
      teleport-in partner, whatever weights the other lists carry. */
  lemma RealizesPorting(p: Pony, t: Table)
    requires Realizes(p, t) && PortsPaired(t)
    ensures PortsHonoured(p)
  {
    forall i | 0 <= i < |p.actions| && p.actions[i].affinity == PortOut
      ensures |p.actions[i].nextMoving| == 1
      ensures p.actions[i].nextMoving[0] != null && p.actions[i].nextMoving[0].affinity == PortIn
      ensures p.actions[i].nextMoving[0] in p.actions
    {
      assert Wired(p.actions, i, t);
      var partner := t.moving[i][0];
      assert Wired(p.actions, partner, t);
      assert p.actions[i].nextMoving == [p.actions[partner]];
    }
  }

  lemma TargetsBetween(nodes: seq<PonyAction>, idx: seq<nat>, lo: nat, hi: nat)
    requires Between(idx, lo, hi) && hi <= |nodes|
    ensures forall x :: x in Targets(nodes, idx) ==> x in nodes[lo..hi]
  {
  }

  /** A confined block of actions becomes a block of nodes that no edge leaves. */
  lemma RealizesConfined(p: Pony, t: Table, lo: nat, hi: nat)
    requires Realizes(p, t) && Confined(t, lo, hi) && lo <= hi <= |t.clips|
    ensures forall i :: lo <= i < hi ==> Enclosed(p.actions[i], p.actions[lo..hi])
  {
    forall i | lo <= i < hi ensures Enclosed(p.actions[i], p.actions[lo..hi]) {
      assert Wired(p.actions, i, t);
      TargetsBetween(p.actions, t.waiting[i], lo, hi);
      TargetsBetween(p.actions, t.moving[i], lo, hi);
      TargetsBetween(p.actions, t.drag[i], lo, hi);
    }
  }

  // ---------------------------------------------------------------------------------------
  // The tables of the built-in characters. Positions follow each character's action array;
  // the local names are those of the arrays the character's code passes to the setters.

  /** Actions: stand, trot. */
  function DefaultPonyTable(standId: ClipId, trotId: ClipId): (t: Table)
    ensures WellFormed(t) && |t.clips| == 2
  {
    var justStand := [0];
    var justTrot := [1];
    Table([standId, trotId], [Plain, Plain],
      [justStand, justStand],
      [justTrot, justTrot],
      [justTrot, justTrot],
      justTrot)
  }

  /** Actions: stand, trot, fly. */
  function DefaultFlyerTable(standId: ClipId, trotId: ClipId, flyId: ClipId): (t: Table)
    ensures WellFormed(t) && |t.clips| == 3
  {
    var justStand := [0];
    var justFly := [2];
    var waitStates := [0, 2];
    var moveStates := [1, 2];
    Table([standId, trotId, flyId], [Plain, Plain, Plain],
      [justStand, justStand, waitStates],
      [moveStates, moveStates, justFly],
      [justFly, justFly, justFly],
      moveStates)
  }

  /** Actions: stand, trot, drag. Applejack and Rarity have this shape. */
  function StandTrotDragTable(standId: ClipId, trotId: ClipId, dragId: ClipId): (t: Table)
    ensures WellFormed(t) && |t.clips| == 3
  {
    var justStand := [0];
    var justTrot := [1];
    var justDrag := [2];
    Table([standId, trotId, dragId], [Plain, Plain, Plain],
      [justStand, justStand, justStand],
      [justTrot, justTrot, justTrot],
      [justDrag, justDrag, justDrag],
      justTrot)
  }

  /** Actions: stand, trot, standdrunk, trotdrunk. */
  function BerryPunchTable(): (t: Table)
    ensures WellFormed(t) && |t.clips| == 4
  {
    var waitStates := [0, 2];
    var moveStates := [1, 3];
    Table(["bp_stand", "bp_trot", "bp_standdrunk", "bp_trotdrunk"], [Plain, Plain, Plain, Plain],
      [waitStates, waitStates, waitStates, waitStates],
      [moveStates, moveStates, moveStates, moveStates],
      [moveStates, moveStates, moveStates, moveStates],
      moveStates)
  }

  /** Actions: stand, trot, hover, hoverud, fly, flyud, drag. */
  function DerpyHoovesTable(): (t: Table)
    ensures WellFormed(t) && |t.clips| == 7
  {
    var justStand := [0];
    var justFly := [4];
    var justFlyud := [5];
    var justDrag := [6];
    var waitStatesnorm := [0, 2];
    var waitStatesud := [0, 3];
    var waitStates := [0, 2, 3];
    var moveStates := [1, 4, 5];
    Table(
      ["derpy_stand", "derpy_trot", "derpy_hover", "derpy_hoverud", "derpy_fly", "derpy_flyud", "derpy_drag"],
      [Plain, Plain, Plain, Plain, Plain, Plain, Plain],
      [justStand, justStand, waitStatesnorm, waitStatesud, waitStatesnorm, waitStatesud, waitStates],
      [moveStates, moveStates, justFly, justFlyud, justFly, justFlyud, moveStates],
      [justDrag, justDrag, justDrag, justDrag, justDrag, justDrag, justDrag],
      moveStates)
  }

  /** Actions: stand, trot, fly, drag. */
  function FluttershyTable(): (t: Table)
    ensures WellFormed(t) && |t.clips| == 4
  {
    var justStand := [0];
    var justFly := [2];
    var justDrag := [3];
    var waitStates := [0, 0, 0, 2];
    var moveStates := [1, 1, 1, 2];
    Table(["fs_stand", "fs_trot", "fs_fly", "fs_drag"], [Plain, Plain, Plain, Plain],
      [justStand, justStand, waitStates, waitStates],
      [moveStates, moveStates, justFly, moveStates],
      [justDrag, justDrag, justDrag, justDrag],
      moveStates)
  }

  /** Actions: sit, stand, trot. */
  function LyraHeartstringsTable(): (t: Table)
    ensures WellFormed(t) && |t.clips| == 3
  {
    var justTrot := [2];
    var waitStates := [1, 1, 1, 0];
    Table(["lyra_sit", "lyra_stand", "lyra_trot"], [Plain, Plain, Plain],
      [waitStates, waitStates, waitStates],
      [justTrot, justTrot, justTrot],
      [justTrot, justTrot, justTrot],
      justTrot)
  }

  /** Actions: stand, trot, bounce, drag. */
  function PinkiePieTable(): (t: Table)
    ensures WellFormed(t) && |t.clips| == 4
  {
    var justStand := [0];
    var justDrag := [3];
    var moveStates := [1, 2];
    Table(["pp_stand", "pp_trot", "pp_bounce", "pp_drag"], [Plain, Plain, Plain, Plain],
      [justStand, justStand, justStand, justStand],
      [moveStates, moveStates, moveStates, moveStates],
      [justDrag, justDrag, justDrag, justDrag],
      moveStates)
  }

  /** Actions: stand, trot, fly, drag. */
  function RainbowDashTable(): (t: Table)
    ensures WellFormed(t) && |t.clips| == 4
  {
    var justStand := [0];
    var justFly := [2];
    var justDrag := [3];
    var waitStates := [0, 2, 2, 2];
    var moveStates := [1, 2, 2, 2];
    Table(["rd_stand", "rd_trot", "rd_fly", "rd_drag"], [Plain, Plain, Plain, Plain],
      [justStand, justStand, waitStates, waitStates],
      [moveStates, moveStates, justFly, moveStates],
      [justDrag, justDrag, justDrag, justDrag],
      moveStates)
  }

  /** Actions: stand, trot, teleportOut, teleportIn. */
  function SunsetShimmerTable(): (t: Table)
    ensures WellFormed(t) && PortsPaired(t) && |t.clips| == 4
  {
    var justStand := [0];
    var justTrot := [1];
    var moveStates := [1, 1, 1, 2];
    Table(["ss_stand", "ss_trot", "ss_teleportout", "ss_teleportin"], [Plain, Plain, PortOut, PortIn],
      [justStand, justStand, justStand, justStand],
      [moveStates, moveStates, [3], moveStates],
      [justTrot, justTrot, justTrot, justTrot],
      moveStates)
  }

  /** Actions 0-4 are the winged clips standA, trotA, flyA, teleportOutA, teleportInA;
      actions 5-9 the unicorn clips standU, trotU, teleportOutU, teleportInU, dragU. */
  function TwilightSparkleTable(): (t: Table)
    ensures WellFormed(t) && |t.clips| == 10
    ensures Confined(t, 0, 5) && Confined(t, 5, 10)
  {
    Table(
      ["pts_stand", "pts_trot", "pts_fly", "pts_teleportout", "pts_teleportin",
       "ts_stand", "ts_trot", "ts_teleportout", "ts_teleportin", "ts_drag"],
      [Plain, Plain, Plain, PortOut, PortIn, Plain, Plain, PortOut, PortIn, Plain],
      TwilightSparkleWaiting(), TwilightSparkleMoving(), TwilightSparkleDrag(),
      [1, 1, 2, 3, 6, 6, 6, 7])
  }

  /** Both teleport-out actions of Twilight Sparkle move only to their own teleport-in
      partner: teleportOutA to teleportInA, teleportOutU to teleportInU. */
  lemma TwilightSparklePortsPaired()
    ensures PortsPaired(TwilightSparkleTable())
    ensures TwilightSparkleTable().moving[3] == [4] && TwilightSparkleTable().moving[7] == [8]
  {
  }

  function TwilightSparkleWaiting(): (w: seq<seq<nat>>)
    ensures |w| == 10 && ColumnInRange(w, 10) && ColumnConfined(w, 0, 5) && ColumnConfined(w, 5, 10)
  {
    var justStandA := [0];
    var waitStatesA := [0, 0, 0, 2];
    var justStandU := [5];
    [justStandA, justStandA, waitStatesA, justStandA, justStandA,
     justStandU, justStandU, justStandU, justStandU, justStandU]
  }

  function TwilightSparkleMoving(): (m: seq<seq<nat>>)
    ensures |m| == 10 && ColumnInRange(m, 10) && ColumnConfined(m, 0, 5) && ColumnConfined(m, 5, 10)
  {
    var justFlyA := [2];
    var moveStatesA := [1, 1, 2, 3];
    var moveStatesU := [6, 6, 6, 7];
    [moveStatesA, moveStatesA, justFlyA, [4], moveStatesA,
     moveStatesU, moveStatesU, [8], moveStatesU, moveStatesU]
  }

  function TwilightSparkleDrag(): (d: seq<seq<nat>>)
    ensures |d| == 10 && ColumnInRange(d, 10) && ColumnConfined(d, 0, 5) && ColumnConfined(d, 5, 10)
  {
    var justFlyA := [2];
    var justDragU := [9];
    [justFlyA, justFlyA, justFlyA, justFlyA, justFlyA,
     justDragU, justDragU, justDragU, justDragU, justDragU]
  }

  /** Actions: stand, trot, dance, moonwalk. */
  function VinylScratchTable(): (t: Table)
    ensures WellFormed(t) && |t.clips| == 4
  {
    var justTrot := [1];
    var waitStates := [0, 2];
    var moveStates := [1, 1, 1, 3];
    Table(["vinyl_stand", "vinyl_trot", "vinyl_dance", "vinyl_moonwalk"], [Plain, Plain, Plain, Plain],
      [waitStates, waitStates, waitStates, waitStates],
      [moveStates, moveStates, moveStates, moveStates],
      [justTrot, justTrot, justTrot, justTrot],
      moveStates)
  }
}
