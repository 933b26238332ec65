/** Characters built from a user-supplied definition: every action is declared by name, and its
    three candidate lists and the start list are comma-separated lists of those names. */
module CustomPonies {
  import opened Ponies

  /** One declared action: its name, the source of its frames, and the raw candidate lists
      keyed by context ("waiting", "moving", "drag"). */
  datatype ActionDef = ActionDef(name: string, clip: ClipId, nextActions: map<string, string>)

  /** A parsed definition: the declared actions in document order and the raw start list. */
  datatype PonyDefinition = PonyDefinition(actions: seq<ActionDef>, startActions: string)

  /** The three contexts, under the keys a definition uses for them. */
  const WaitingKey := "waiting"
  const MovingKey := "moving"
  const DragKey := "drag"

  // ---------------------------------------------------------------------------------------
  // Splitting a name list on ','

  /** The parts of `s` between commas, in order, empty parts included; a string without a
      comma is its own only part. */
  function Split(s: string): (parts: seq<string>)
    ensures |parts| >= 1
    ensures forall k :: 0 <= k < |parts| ==> ',' !in parts[k]
  {
    if s == [] then [""]
    else
      var rest := Split(s[1..]);
      if s[0] == ',' then [""] + rest
      else [[s[0]] + rest[0]] + rest[1..]
  }

  /** The inverse of Split: the parts glued back together with commas between them. */
  function Join(parts: seq<string>): string
  {
    if |parts| == 0 then ""
    else if |parts| == 1 then parts[0]
    else parts[0] + "," + Join(parts[1..])
  }

  /** Splitting loses nothing: gluing the parts back gives the original list. */
  lemma {:induction false} JoinSplit(s: string)
    ensures Join(Split(s)) == s
  {
    if s != [] {
      var rest := Split(s[1..]);
      JoinSplit(s[1..]);
      if s[0] == ',' {
        assert Split(s) == [""] + rest;
        assert Join(Split(s)) == "" + "," + Join(rest);
      } else {
        if |rest| == 1 {
          assert Join(Split(s)) == [s[0]] + rest[0];
        } else {
          assert rest == [rest[0]] + rest[1..];
          assert Join(rest) == rest[0] + "," + Join(rest[1..]);
          assert Join(Split(s)) == [s[0]] + rest[0] + "," + Join(rest[1..]);
        }
        assert s == [s[0]] + s[1..];
      }
    }
  }

  /** A comma-free name followed by a comma splits off as the first part. */
  lemma {:induction false} SplitCons(name: string, tail: string)
    requires ',' !in name
    ensures Split(name + "," + tail) == [name] + Split(tail)
  {
    if name == [] {
      assert name + "," + tail == [','] + tail;
      assert (name + "," + tail)[1..] == tail;
    } else {
      var s := name + "," + tail;
      assert s[0] == name[0] && s[1..] == name[1..] + "," + tail;
      SplitCons(name[1..], tail);
      assert name == [name[0]] + name[1..];
    }
  }

  /** A comma-free name is its own only part. */
  lemma {:induction false} SplitAtom(name: string)
    requires ',' !in name
    ensures Split(name) == [name]
  {
    if name != [] {
      SplitAtom(name[1..]);
      assert name == [name[0]] + name[1..];
    }
  }

  /** Joining comma-free names and splitting again gives back exactly those names. */
  lemma {:induction false} SplitJoin(parts: seq<string>)
    requires |parts| >= 1
    requires forall k :: 0 <= k < |parts| ==> ',' !in parts[k]
    ensures Split(Join(parts)) == parts
  {
    if |parts| == 1 {
      SplitAtom(parts[0]);
    } else {
      SplitJoin(parts[1..]);
      SplitCons(parts[0], Join(parts[1..]));
      assert parts == [parts[0]] + parts[1..];
    }
  }

  // ---------------------------------------------------------------------------------------
  // Resolving names to nodes

  /** A hash-map lookup: the node bound to `name`, or null when no action has that name. */
  function Lookup(nodes: map<string, PonyAction>, name: string): (a: PonyAction?)
    ensures a != null <==> name in nodes
    ensures a != null ==> a in nodes.Values
  {
    if name in nodes then nodes[name] else null
  }

  /** The node list a name list stands for: same length, same order, each name looked up. */
  function Resolve(nodes: map<string, PonyAction>, names: seq<string>): (r: seq<PonyAction?>)
    ensures |r| == |names|
    ensures forall j :: 0 <= j < |names| ==> r[j] == Lookup(nodes, names[j])
  {
    if names == [] then [] else [Lookup(nodes, names[0])] + Resolve(nodes, names[1..])
  }

  /** No two names are bound to the same node. */
  predicate Injective(nodes: map<string, PonyAction>)
  {
    forall x, y :: x in nodes && y in nodes && x != y ==> nodes[x] != nodes[y]
  }

  /** Resolution keeps weights: a node occurs in the resolved list exactly as often as its
      name occurs in the name list. */
  lemma {:induction false} ResolveWeight(nodes: map<string, PonyAction>, names: seq<string>, name: string)
    requires Injective(nodes) && name in nodes
    ensures multiset(Resolve(nodes, names))[nodes[name]] == multiset(names)[name]
  {
    if names != [] {
      ResolveWeight(nodes, names[1..], name);
      assert names == [names[0]] + names[1..];
      assert (Lookup(nodes, names[0]) == nodes[name]) == (names[0] == name);
    }
  }

  /** When every name is declared, the resolved list has no null entry and only bound nodes. */
  lemma ResolveDeclared(nodes: map<string, PonyAction>, names: seq<string>, all: seq<PonyAction>)
    requires |names| > 0
    requires forall j :: 0 <= j < |names| ==> names[j] in nodes
    requires forall a :: a in nodes.Values ==> a in all
    ensures EdgesInto(Resolve(nodes, names), all)
  {
  }

  /** getActions: fills a fresh array with the lookup of each name, in order. */
  method GetActions(nodes: map<string, PonyAction>, names: seq<string>) returns (r: seq<PonyAction?>)
    ensures r == Resolve(nodes, names)
  {
    var result := new PonyAction?[|names|];
    for j := 0 to |names|
      invariant forall k :: 0 <= k < j ==> result[k] == Lookup(nodes, names[k])
    {
      result[j] := Lookup(nodes, names[j]);
    }
    r := result[..];
  }

  // ---------------------------------------------------------------------------------------
  // Definitions

  /** The raw list an action gives for a context; empty when the context is missing. */
  function ListOf(d: ActionDef, key: string): string
  {
    if key in d.nextActions then d.nextActions[key] else ""
  }

  /** Every name the definition declares. */
  function Declared(defs: seq<ActionDef>): set<string>
  {
    set d | d in defs :: d.name
  }

  /** The position of the last declaration of `name`, the one a hash-map put keeps; -1 when
      `name` is not declared. */
  function LastIndex(defs: seq<ActionDef>, name: string): (i: int)
    ensures -1 <= i < |defs|
    ensures i >= 0 <==> name in Declared(defs)
    ensures i >= 0 ==> defs[i].name == name && forall j :: i < j < |defs| ==> defs[j].name != name
  {
    if defs == [] then -1
    else if defs[|defs| - 1].name == name then |defs| - 1
    else
      var front := defs[..|defs| - 1];
      assert defs == front + [defs[|defs| - 1]];
      assert Declared(defs) == Declared(front) + {defs[|defs| - 1].name};
      LastIndex(front, name)
  }

  /** The declaration each name ends up with when the declarations are put into a hash map in
      order: a later declaration of a name replaces an earlier one. */
  function LastDecl(defs: seq<ActionDef>): (m: map<string, ActionDef>)
    ensures |defs| > 0 ==> defs[|defs| - 1].name in m && m[defs[|defs| - 1].name] == defs[|defs| - 1]
  {
    if defs == [] then map[]
    else LastDecl(defs[..|defs| - 1])[defs[|defs| - 1].name := defs[|defs| - 1]]
  }

  /** Putting one more declaration into the map. */
  lemma LastDeclExtend(defs: seq<ActionDef>, i: nat)
    requires i < |defs|
    ensures LastDecl(defs[..i + 1]) == LastDecl(defs[..i])[defs[i].name := defs[i]]
  {
    assert defs[..i + 1][..|defs[..i + 1]| - 1] == defs[..i];
  }

  /** Every declared name, and only those, ends up in the map. */
  lemma {:induction false} LastDeclKeys(defs: seq<ActionDef>)
    ensures LastDecl(defs).Keys == Declared(defs)
  {
    if defs != [] {
      var front := defs[..|defs| - 1];
      LastDeclKeys(front);
      assert defs == front + [defs[|defs| - 1]];
      assert Declared(defs) == Declared(front) + {defs[|defs| - 1].name};
    }
  }

  /** The map keeps exactly the last declaration of each name. */
  lemma {:induction false} LastDeclIsLast(defs: seq<ActionDef>, name: string)
    requires name in Declared(defs)
    ensures name in LastDecl(defs) && LastDecl(defs)[name] == defs[LastIndex(defs, name)]
  {
    var front := defs[..|defs| - 1];
    if defs[|defs| - 1].name != name {
      assert defs == front + [defs[|defs| - 1]];
      assert Declared(defs) == Declared(front) + {defs[|defs| - 1].name};
      LastDeclIsLast(front, name);
    }
  }

  /** A non-empty name list all of whose parts are non-empty declared names. */
  predicate ResolvableList(list: string, names: set<string>)
  {
    forall k :: 0 <= k < |Split(list)| ==> Split(list)[k] != "" && Split(list)[k] in names
  }

  /** Every action gives all three lists; building dereferences each of them. */
  predicate ListsPresent(def: PonyDefinition)
  {
    forall d :: d in def.actions ==>
      WaitingKey in d.nextActions && MovingKey in d.nextActions && DragKey in d.nextActions
  }

  /** What a validated definition guarantees: every action gives all three lists, and every
      name in them and in the start list is declared. */
  predicate ValidDefinition(def: PonyDefinition)
  {
    ListsPresent(def) &&
    ResolvableList(def.startActions, Declared(def.actions)) &&
    forall d :: d in def.actions ==>
      ResolvableList(d.nextActions[WaitingKey], Declared(def.actions)) &&
      ResolvableList(d.nextActions[MovingKey], Declared(def.actions)) &&
      ResolvableList(d.nextActions[DragKey], Declared(def.actions))
  }

  /** The waiting, moving and drag lists of declaration `d`, resolved against `nodes`. */
  function Wiring(nodes: map<string, PonyAction>, d: ActionDef): (seq<PonyAction?>, seq<PonyAction?>, seq<PonyAction?>)
  {
    (Resolve(nodes, Split(ListOf(d, WaitingKey))),
     Resolve(nodes, Split(ListOf(d, MovingKey))),
     Resolve(nodes, Split(ListOf(d, DragKey))))
  }

  /** A node carries the three lists of declaration `d`, resolved against `nodes`. */
  ghost predicate WiredTo(a: PonyAction, nodes: map<string, PonyAction>, d: ActionDef)
    reads a
  {
    (a.nextWaiting, a.nextMoving, a.nextDrag) == Wiring(nodes, d)
  }

  // ---------------------------------------------------------------------------------------
  // Building

  /** values().toArray(new PonyAction[size()]): one entry per key, holding that key's node, in
      an unspecified order. When no two names share a node, that is every bound node exactly
      once. */
  method ValuesOf(nodes: map<string, PonyAction>) returns (r: seq<PonyAction>)
    requires Injective(nodes)
    ensures |r| == |nodes|
    ensures forall a :: a in r <==> a in nodes.Values
    ensures Distinct(r)
  {
    r := [];
    var keys := nodes.Keys;
    while keys != {}
      invariant keys <= nodes.Keys && |keys| + |r| == |nodes|
      invariant forall n :: n in nodes ==> n in keys || nodes[n] in r
      invariant forall n :: n in keys ==> nodes[n] !in r
      invariant forall a :: a in r ==> a in nodes.Values
      invariant Distinct(r)
      decreases |keys|
    {
      var n :| n in keys;
      r := r + [nodes[n]];
      keys := keys - {n};
    }
  }

  /** Pass 1 of makeCustomPony: a fresh node per declaration, put under its name, so that a
      later declaration of a name replaces the node of an earlier one. */
  method DeclareActions(defs: seq<ActionDef>) returns (actions: map<string, PonyAction>)
    ensures actions.Keys == LastDecl(defs).Keys && Injective(actions)
    ensures forall n :: n in actions ==> fresh(actions[n])
    ensures forall n :: n in actions ==>
      actions[n].clip == LastDecl(defs)[n].clip && actions[n].affinity == Plain
  {
    actions := map[];
    for i := 0 to |defs|
      invariant actions.Keys == LastDecl(defs[..i]).Keys && Injective(actions)
      invariant forall n :: n in actions ==> fresh(actions[n])
      invariant forall n :: n in actions ==>
        actions[n].clip == LastDecl(defs[..i])[n].clip && actions[n].affinity == Plain
    {
      var a := new PonyAction(defs[i].clip, Plain);
      LastDeclExtend(defs, i);
      actions := actions[defs[i].name := a];
    }
    assert defs[..|defs|] == defs;
  }

  /** The three setter calls of pass 2 for one declaration. */
  method AttachOne(action: PonyAction, actions: map<string, PonyAction>, d: ActionDef)
    requires WaitingKey in d.nextActions && MovingKey in d.nextActions && DragKey in d.nextActions
    modifies action
    ensures WiredTo(action, actions, d)
  {
    var waiting := GetActions(actions, Split(d.nextActions[WaitingKey]));
    var moving := GetActions(actions, Split(d.nextActions[MovingKey]));
    var drag := GetActions(actions, Split(d.nextActions[DragKey]));
    action.SetNextWaiting(waiting);
    action.SetNextMoving(moving);
    action.SetNextDrag(drag);
  }

  /** Pass 2 of makeCustomPony: for each declaration in order, the node its name is bound to
      gets that declaration's three lists, resolved against the complete map. A name declared
      twice is wired twice, and the later declaration's lists stay. */
  method AttachLists(defs: seq<ActionDef>, actions: map<string, PonyAction>, ghost frame: set<PonyAction>)
    requires forall i :: 0 <= i < |defs| ==> defs[i].name in actions
    requires Injective(actions)
    requires forall n :: n in actions ==> actions[n] in frame
    requires forall d :: d in defs ==>
      WaitingKey in d.nextActions && MovingKey in d.nextActions && DragKey in d.nextActions
    modifies frame
    ensures forall n :: n in LastDecl(defs) ==> n in actions && WiredTo(actions[n], actions, LastDecl(defs)[n])
  {
    ghost var done: map<string, ActionDef> := map[];
    for i := 0 to |defs|
      invariant done == LastDecl(defs[..i])
      invariant forall n :: n in done ==> n in actions && WiredTo(actions[n], actions, done[n])
    {
      var d := defs[i];
      assert d in defs;
      AttachOne(actions[d.name], actions, d);
      LastDeclExtend(defs, i);
      done := done[d.name := d];
    }
    assert defs[..|defs|] == defs;
  }

  /** A resolved list of a valid definition is non-empty and points only into the bound nodes. */
  lemma ListClosed(def: PonyDefinition, nodes: map<string, PonyAction>, all: seq<PonyAction>, list: string)
    requires ResolvableList(list, Declared(def.actions))
    requires nodes.Keys == Declared(def.actions)
    requires forall a :: a in nodes.Values ==> a in all
    ensures EdgesInto(Resolve(nodes, Split(list)), all)
  {
  }

  /** Closure of one node: it carries the resolved lists of a declaration of a valid
      definition, so each of its lists is non-empty and points only into the bound nodes. */
  lemma NodeClosed(def: PonyDefinition, nodes: map<string, PonyAction>, all: seq<PonyAction>, n: string)
    requires ValidDefinition(def)
    requires nodes.Keys == Declared(def.actions)
    requires forall a :: a in nodes.Values ==> a in all
    requires n in LastDecl(def.actions) && n in nodes
    requires WiredTo(nodes[n], nodes, LastDecl(def.actions)[n])
    ensures EdgesInto(nodes[n].nextWaiting, all)
    ensures EdgesInto(nodes[n].nextMoving, all)
    ensures EdgesInto(nodes[n].nextDrag, all)
  {
    LastDeclIsLast(def.actions, n);
    var d := LastDecl(def.actions)[n];
    assert d in def.actions;
    ListClosed(def, nodes, all, d.nextActions[WaitingKey]);
    ListClosed(def, nodes, all, d.nextActions[MovingKey]);
    ListClosed(def, nodes, all, d.nextActions[DragKey]);
  }

  /** A character built from a valid definition, over exactly the bound nodes, each carrying
      its last declaration's resolved lists, satisfies the character invariant. */
  lemma CustomValid(def: PonyDefinition, nodes: map<string, PonyAction>, p: Pony)
    requires ValidDefinition(def)
    requires nodes.Keys == LastDecl(def.actions).Keys
    requires forall a :: a in p.actions <==> a in nodes.Values
    requires Distinct(p.actions)
    requires forall n :: n in nodes ==> WiredTo(nodes[n], nodes, LastDecl(def.actions)[n])
    requires p.start == Resolve(nodes, Split(def.startActions))
    ensures Valid(p)
  {
    LastDeclKeys(def.actions);
    ListClosed(def, nodes, p.actions, def.startActions);
    forall a | a in p.actions
      ensures EdgesInto(a.nextWaiting, p.actions)
      ensures EdgesInto(a.nextMoving, p.actions)
      ensures EdgesInto(a.nextDrag, p.actions)
    {
      var n :| n in nodes && nodes[n] == a;
      NodeClosed(def, nodes, p.actions, n);
    }
  }

  /** makeCustomPony: the two passes, then a character over the map's values whose start list
      is the resolved start names. Forward references and self-references resolve because
      every node exists before any list is attached; a name no action declares resolves to
      null. */
  method MakeCustomPony(def: PonyDefinition) returns (p: Pony, ghost nodes: map<string, PonyAction>)
    requires ListsPresent(def)
    ensures fresh(p) && forall a :: a in p.actions ==> fresh(a)
    ensures nodes.Keys == LastDecl(def.actions).Keys && Injective(nodes)
    ensures forall a :: a in p.actions <==> a in nodes.Values
    ensures Distinct(p.actions) && |p.actions| == |nodes|
    ensures forall n :: n in nodes ==>
      nodes[n].clip == LastDecl(def.actions)[n].clip && nodes[n].affinity == Plain &&
      WiredTo(nodes[n], nodes, LastDecl(def.actions)[n])
    ensures p.start == Resolve(nodes, Split(def.startActions))
  {
    var actions := DeclareActions(def.actions);
    LastDeclKeys(def.actions);
    AttachLists(def.actions, actions, actions.Values);
    var all := ValuesOf(actions);
    var start := GetActions(actions, Split(def.startActions));
    p := new Pony(all, start);
    nodes := actions;
  }

  /** Loading one definition: once validation has accepted it, the character built from it
      satisfies the character invariant. */
  method MakeValidatedPony(def: PonyDefinition) returns (p: Pony)
    requires ValidDefinition(def)
    ensures fresh(p) && forall a :: a in p.actions ==> fresh(a)
    ensures Valid(p)
  {
    ghost var nodes;
    p, nodes := MakeCustomPony(def);
    CustomValid(def, nodes, p);
  }
}
