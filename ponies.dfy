/** The behaviour graph of one character: its actions (animation clips) and, for each action,
    the candidate next actions in each of the three contexts. Candidate lists are sequences,
    never sets: repeating an action in a list is how the tables weight the random choice. */
module Ponies {

  /** Opaque reference to the frames of a clip: the name of a resource array for a built-in
      character, or the frame source a custom definition names. The engine never looks inside. */
  type ClipId = string

  /** The tag an action may carry: a teleport-out clip (PORT_O) or a teleport-in clip (PORT_I). */
  datatype Affinity = Plain | PortOut | PortIn

  /** One node of the graph. The clip and the tag are fixed at construction; the three candidate
      lists are attached afterwards by setters, so that lists may name nodes built later or the
      node itself. A list entry is null where a name could not be resolved. */
  class PonyAction {
    const clip: ClipId
    const affinity: Affinity
    var nextWaiting: seq<PonyAction?>
    var nextMoving: seq<PonyAction?>
    var nextDrag: seq<PonyAction?>

    constructor (clip: ClipId, affinity: Affinity)
      ensures this.clip == clip && this.affinity == affinity
      ensures nextWaiting == [] && nextMoving == [] && nextDrag == []
    {
      this.clip := clip;
      this.affinity := affinity;
      nextWaiting, nextMoving, nextDrag := [], [], [];
    }

    method SetNextWaiting(next: seq<PonyAction?>)
      modifies this
      ensures nextWaiting == next
      ensures nextMoving == old(nextMoving) && nextDrag == old(nextDrag)
    {
      nextWaiting := next;
    }

    method SetNextMoving(next: seq<PonyAction?>)
      modifies this
      ensures nextMoving == next
      ensures nextWaiting == old(nextWaiting) && nextDrag == old(nextDrag)
    {
      nextMoving := next;
    }

    method SetNextDrag(next: seq<PonyAction?>)
      modifies this
      ensures nextDrag == next
      ensures nextWaiting == old(nextWaiting) && nextMoving == old(nextMoving)
    {
      nextDrag := next;
    }
  }

  /** A character: all of its actions, and the candidates a new instance starts in. */
  class Pony {
    const actions: seq<PonyAction>
    const start: seq<PonyAction?>

    constructor (all: seq<PonyAction>, start: seq<PonyAction?>)
      ensures actions == all && this.start == start
    {
      actions := all;
      this.start := start;
    }
  }

  /** No action is listed twice in a character's action set. */
  predicate Distinct(nodes: seq<PonyAction>)
  {
    forall i, j :: 0 <= i < j < |nodes| ==> nodes[i] != nodes[j]
  }

  /** A candidate list is usable: it has at least one entry and every entry is one of `all`. */
  predicate EdgesInto(edges: seq<PonyAction?>, all: seq<PonyAction>)
  {
    |edges| > 0 && forall k :: 0 <= k < |edges| ==> edges[k] != null && edges[k] in all
  }

  /** The invariant of a finished character: its actions are distinct, its start list and every
      candidate list of every action are non-empty and point only into its own action set. */
  ghost predicate Valid(p: Pony)
    reads p, set a | a in p.actions
  {
    Distinct(p.actions) &&
    EdgesInto(p.start, p.actions) &&
    forall a :: a in p.actions ==>
      EdgesInto(a.nextWaiting, p.actions) &&
      EdgesInto(a.nextMoving, p.actions) &&
      EdgesInto(a.nextDrag, p.actions)
  }

  /** Porting: the only moving candidate of a teleport-out action is a teleport-in action of
      the same character, so a teleport-out clip is always followed by a teleport-in clip. */
  ghost predicate PortsHonoured(p: Pony)
    reads p, set a | a in p.actions
  {
    forall i :: 0 <= i < |p.actions| && p.actions[i].affinity == PortOut ==>
      |p.actions[i].nextMoving| == 1 &&
      p.actions[i].nextMoving[0] != null &&
      p.actions[i].nextMoving[0].affinity == PortIn &&
      p.actions[i].nextMoving[0] in p.actions
  }

  /** Every candidate of `a`, in every context, is one of `block`. */
  ghost predicate Enclosed(a: PonyAction, block: seq<PonyAction>)
    reads a
  {
    (forall x :: x in a.nextWaiting ==> x in block) &&
    (forall x :: x in a.nextMoving ==> x in block) &&
    (forall x :: x in a.nextDrag ==> x in block)
  }
}
