# PonyPaper behaviour graphs

A model of how PonyPaper builds the behaviour graph of each character. The live wallpaper
draws small animated ponies. Each pony plays one action (an animation clip) at a time. When an
action ends, the pony picks its next action at random from that action's candidate list for
the current context:

- waiting: the pony idles;
- moving: the pony walks or flies about;
- drag: the user holds the pony.

The lists are sequences, not sets: an action that appears three times in a four-entry list is
picked three times in four. Each character also has a start list for a new instance.

Graphs come from two sources:

- **Built-in characters.** Each one creates its action nodes, then attaches the lists with the
  setters `setNextWaiting`, `setNextMoving` and `setNextDrag`. Many characters reuse the
  generic stand/trot builder (`makeDefaultPony`) or stand/trot/fly builder
  (`makeDefaultFlyer`).
- **Custom characters**, read from user definition files. Every action is declared by name.
  Each list is a comma-separated string of names. `makeCustomPony` builds the graph in two
  passes: first one node per name in a hash map, then each list resolved through that map.

Files:

- `ponies.dfy` (module `Ponies`): the object model. It has the classes `PonyAction` (clip,
  port tag and three mutable candidate lists, set through the three setters) and `Pony`
  (actions and start list). It also has the invariant `Valid`: distinct actions, and every
  list non-empty and closed over the character's own actions. `PortsHonoured` is the porting
  rule.
- `tables.dfy` (module `PonyTables`): each built-in character's graph as a table of positions.
  Each table uses the same local list names as the Java code (`justStand`, `waitStates`, ...).
  `Realizes(p, t)` says an object graph is exactly a table. The lemmas here carry validity,
  weights, porting and separation from a table to the graph built to it.
- `builtins.dfy` (module `BuiltInPonies`): `Build`, which runs the Java builders' two phases
  (allocate, then set) for any table. It has one `Make...` method per character, and lemmas
  giving the exact lists of the two generic builders and the weights of the flying and
  teleporting characters.
- `custom.dfy` (module `CustomPonies`): definitions, splitting on ',', `getActions`, and the
  two passes of `makeCustomPony` with hash-map put and get semantics. A later declaration of
  a name replaces the node of an earlier one, and an undeclared name resolves to null. The
  proof shows that a validated definition yields a valid character.
- `xmlfilter.dfy` (module `XmlFilter`): the filter that selects definition files.

## Model

| member | source | states |
|---|---|---|
| PonyTables.RealizesValid | src/uk/cpjsmith/ponypaper/AllPonies.java:79-123 | An object graph built to a well-formed table is a valid character: its actions are distinct, and its start list and every candidate list are non-empty and point only into its own actions. |
| PonyTables.RealizesWeight | src/uk/cpjsmith/ponypaper/AllPonies.java:250-251 | In a graph built to a table, each node occurs in a candidate list exactly as often as the table repeats that action, in all three contexts. Repetition is the weighting, and building keeps it. |
| PonyTables.TargetsWeight | src/uk/cpjsmith/ponypaper/AllPonies.java:246-251 | A built-in array literal written as a list of positions (such as `{stand, stand, stand, fly}`) becomes a node list in which each node occurs exactly as often as its position. |
| PonyTables.RealizesPorting | src/uk/cpjsmith/ponypaper/AllPonies.java:428-455 | If a table pairs its ports, the graph built to it pairs them too: each teleport-out node has a single moving candidate, and that candidate is a teleport-in node of the same character. |
| PonyTables.RealizesConfined | src/uk/cpjsmith/ponypaper/AllPonies.java:477-519 | If the lists of a block of rows name only rows of that block, the nodes of that block lead only to nodes of that block. |
| PonyTables.TargetsInto | src/uk/cpjsmith/ponypaper/AllPonies.java:83-85 | A built-in array literal written as in-range positions (such as `{stand}` or `{trot}`) becomes a non-empty list of non-null nodes of the character. |
| PonyTables.TargetsBetween | src/uk/cpjsmith/ponypaper/AllPonies.java:477-519 | Positions within a block become nodes within that block. |
| PonyTables.DefaultPonyTable | src/uk/cpjsmith/ponypaper/AllPonies.java:79-97 | The stand/trot graph is well formed and has two actions. |
| PonyTables.DefaultFlyerTable | src/uk/cpjsmith/ponypaper/AllPonies.java:99-123 | The stand/trot/fly graph is well formed and has three actions. |
| PonyTables.StandTrotDragTable | src/uk/cpjsmith/ponypaper/AllPonies.java:129-152 | The stand/trot/drag graph is well formed and has three actions. Rarity (379-402) uses the same shape. |
| PonyTables.BerryPunchTable | src/uk/cpjsmith/ponypaper/AllPonies.java:158-184 | The table of the character is well formed, with 4 actions: every list is non-empty and every entry names one of them. |
| PonyTables.DerpyHoovesTable | src/uk/cpjsmith/ponypaper/AllPonies.java:190-234 | The table of the character is well formed, with 7 actions: every list is non-empty and every entry names one of them. |
| PonyTables.FluttershyTable | src/uk/cpjsmith/ponypaper/AllPonies.java:240-269 | The table of the character is well formed, with 4 actions: every list is non-empty and every entry names one of them. |
| PonyTables.LyraHeartstringsTable | src/uk/cpjsmith/ponypaper/AllPonies.java:275-297 | The table of the character is well formed, with 3 actions: every list is non-empty and every entry names one of them. |
| PonyTables.PinkiePieTable | src/uk/cpjsmith/ponypaper/AllPonies.java:307-334 | The table of the character is well formed, with 4 actions: every list is non-empty and every entry names one of them. |
| PonyTables.RainbowDashTable | src/uk/cpjsmith/ponypaper/AllPonies.java:348-377 | The table of the character is well formed, with 4 actions: every list is non-empty and every entry names one of them. |
| PonyTables.VinylScratchTable | src/uk/cpjsmith/ponypaper/AllPonies.java:522-549 | The table of the character is well formed, with 4 actions: every list is non-empty and every entry names one of them. |
| PonyTables.SunsetShimmerTable | src/uk/cpjsmith/ponypaper/AllPonies.java:428-455 | The table is well formed, with 4 actions. The teleport-out action is tagged as such and its moving list is exactly the teleport-in action. |
| PonyTables.TwilightSparkleTable | src/uk/cpjsmith/ponypaper/AllPonies.java:465-520 | The table is well formed, with 10 actions. Every list of actions 0-4 (winged) names only actions 0-4, and every list of actions 5-9 (unicorn) names only actions 5-9. The 8-entry start list names declared actions only. |
| PonyTables.TwilightSparkleWaiting | src/uk/cpjsmith/ponypaper/AllPonies.java:485-494 | The ten waiting lists are in range and each stays within its own half. |
| PonyTables.TwilightSparkleMoving | src/uk/cpjsmith/ponypaper/AllPonies.java:496-505 | The ten moving lists are in range and each stays within its own half. |
| PonyTables.TwilightSparkleDrag | src/uk/cpjsmith/ponypaper/AllPonies.java:507-516 | The ten drag lists are in range and each stays within its own half. |
| PonyTables.TwilightSparklePortsPaired | src/uk/cpjsmith/ponypaper/AllPonies.java:465-520 | Both teleport-out actions (winged and unicorn) move only to their own teleport-in partner: moving[3] is [4] and moving[7] is [8]. |
| BuiltInPonies.Build | src/uk/cpjsmith/ponypaper/AllPonies.java:87-96 | Generic two-pass construction: one fresh node per action, then the three setters per node, then the character. The result is exactly the table: distinct nodes in table order, and every list and the start list the table's positions resolved to nodes. |
| BuiltInPonies.MakeDefaultPony | src/uk/cpjsmith/ponypaper/AllPonies.java:79-97 | The character is exactly the stand/trot table for the given clips, and valid. |
| BuiltInPonies.MakeDefaultFlyer | src/uk/cpjsmith/ponypaper/AllPonies.java:99-123 | The character is exactly the stand/trot/fly table for the given clips, and valid. |
| BuiltInPonies.DefaultPonyEdges | src/uk/cpjsmith/ponypaper/AllPonies.java:87-96 | Over the nodes: every waiting list is [stand], every moving and drag list is [trot], and the start list is [trot]. |
| BuiltInPonies.DefaultFlyerEdges | src/uk/cpjsmith/ponypaper/AllPonies.java:110-122 | Over the nodes: waiting is [stand] from stand and trot, and [stand, fly] from fly. Moving is [trot, fly] from stand and trot, and [fly] from fly. Drag is [fly] from every node. Start is [trot, fly]. |
| BuiltInPonies.MakeAppleBloom | src/uk/cpjsmith/ponypaper/AllPonies.java:125-127 | The character is exactly makeDefaultPony with the ab_ clips, and valid. |
| BuiltInPonies.MakeApplejack | src/uk/cpjsmith/ponypaper/AllPonies.java:129-152 | The character is exactly the stand/trot/drag table with the aj_ clips, and valid. |
| BuiltInPonies.MakeBabsSeed | src/uk/cpjsmith/ponypaper/AllPonies.java:154-156 | The character is exactly makeDefaultPony with the babs_ clips, and valid. |
| BuiltInPonies.MakeBerryPunch | src/uk/cpjsmith/ponypaper/AllPonies.java:158-184 | The character is exactly its own table, and valid. |
| BuiltInPonies.MakeBigMcIntosh | src/uk/cpjsmith/ponypaper/AllPonies.java:186-188 | The character is exactly makeDefaultPony with the bigmac_ clips, and valid. |
| BuiltInPonies.MakeDerpyHooves | src/uk/cpjsmith/ponypaper/AllPonies.java:190-234 | The character is exactly its own table, and valid. |
| BuiltInPonies.MakeDoctorHooves | src/uk/cpjsmith/ponypaper/AllPonies.java:236-238 | The character is exactly makeDefaultPony with the doctor_ clips, and valid. |
| BuiltInPonies.MakeFluttershy | src/uk/cpjsmith/ponypaper/AllPonies.java:240-269 | The character is exactly its own table, and valid. |
| BuiltInPonies.MakeGilda | src/uk/cpjsmith/ponypaper/AllPonies.java:271-273 | The character is exactly makeDefaultFlyer with the gilda_ clips, and valid. |
| BuiltInPonies.MakeLyraHeartstrings | src/uk/cpjsmith/ponypaper/AllPonies.java:275-297 | The character is exactly its own table, and valid. |
| BuiltInPonies.MakeMinuette | src/uk/cpjsmith/ponypaper/AllPonies.java:299-301 | The character is exactly makeDefaultPony with the minuette_ clips, and valid. |
| BuiltInPonies.MakeOctavia | src/uk/cpjsmith/ponypaper/AllPonies.java:303-305 | The character is exactly makeDefaultPony with the octavia_ clips, and valid. |
| BuiltInPonies.MakePinkiePie | src/uk/cpjsmith/ponypaper/AllPonies.java:307-334 | The character is exactly its own table, and valid. |
| BuiltInPonies.MakePrincessCadance | src/uk/cpjsmith/ponypaper/AllPonies.java:336-338 | The character is exactly makeDefaultFlyer with the cadance_ clips, and valid. |
| BuiltInPonies.MakePrincessCelestia | src/uk/cpjsmith/ponypaper/AllPonies.java:340-342 | The character is exactly makeDefaultFlyer with the celestia_ clips, and valid. |
| BuiltInPonies.MakePrincessLuna | src/uk/cpjsmith/ponypaper/AllPonies.java:344-346 | The character is exactly makeDefaultFlyer with the luna_ clips, and valid. |
| BuiltInPonies.MakeRainbowDash | src/uk/cpjsmith/ponypaper/AllPonies.java:348-377 | The character is exactly its own table, and valid. |
| BuiltInPonies.MakeRarity | src/uk/cpjsmith/ponypaper/AllPonies.java:379-402 | The character is exactly the stand/trot/drag table with the rarity_ clips, and valid. |
| BuiltInPonies.MakeScootaloo | src/uk/cpjsmith/ponypaper/AllPonies.java:404-406 | The character is exactly makeDefaultPony with the scootaloo_ clips, and valid. |
| BuiltInPonies.MakeShiningArmor | src/uk/cpjsmith/ponypaper/AllPonies.java:408-410 | The character is exactly makeDefaultPony with the sa_stand and sa_walk clips, and valid. |
| BuiltInPonies.MakeSoarin | src/uk/cpjsmith/ponypaper/AllPonies.java:412-414 | The character is exactly makeDefaultFlyer with the soarin_ clips, and valid. |
| BuiltInPonies.MakeSpike | src/uk/cpjsmith/ponypaper/AllPonies.java:416-418 | The character is exactly makeDefaultPony with the spike_stand and spike_walk clips, and valid. |
| BuiltInPonies.MakeSpitfire | src/uk/cpjsmith/ponypaper/AllPonies.java:420-422 | The character is exactly makeDefaultFlyer with the spitfire_ clips, and valid. |
| BuiltInPonies.MakeStarlightGlimmer | src/uk/cpjsmith/ponypaper/AllPonies.java:424-426 | The character is exactly makeDefaultPony with the sg_ clips, and valid. |
| BuiltInPonies.MakeSunsetShimmer | src/uk/cpjsmith/ponypaper/AllPonies.java:428-455 | The character is exactly its own table; it also honours porting, so its teleport-out node moves only to its teleport-in node, and valid. |
| BuiltInPonies.MakeSweetieBelle | src/uk/cpjsmith/ponypaper/AllPonies.java:457-459 | The character is exactly makeDefaultPony with the sb_ clips, and valid. |
| BuiltInPonies.MakeSweetieDrops | src/uk/cpjsmith/ponypaper/AllPonies.java:461-463 | The character is exactly makeDefaultPony with the sd_ clips, and valid. |
| BuiltInPonies.MakeTwilightSparkle | src/uk/cpjsmith/ponypaper/AllPonies.java:465-520 | The character is exactly its own table; it also honours porting for both teleport pairs, and the winged nodes 0-4 and the unicorn nodes 5-9 each lead only among themselves, and valid. |
| BuiltInPonies.MakeVinylScratch | src/uk/cpjsmith/ponypaper/AllPonies.java:522-549 | The character is exactly its own table, and valid. |
| BuiltInPonies.MakeZecora | src/uk/cpjsmith/ponypaper/AllPonies.java:551-553 | The character is exactly makeDefaultPony with the zecora_ clips, and valid. |
| BuiltInPonies.FluttershyWeights | src/uk/cpjsmith/ponypaper/AllPonies.java:250-251 | Fluttershy: from fly, waiting picks stand 3 times in 4 and fly once. From stand, moving picks trot 3 times in 4 and fly once. |
| BuiltInPonies.RainbowDashWeights | src/uk/cpjsmith/ponypaper/AllPonies.java:358-359 | Rainbow Dash: from fly, waiting picks fly 3 times in 4 and stand once. From stand, moving picks fly 3 times in 4 and trot once. |
| BuiltInPonies.SunsetShimmerWeights | src/uk/cpjsmith/ponypaper/AllPonies.java:437 | Sunset Shimmer: from stand, moving picks trot 3 times in 4 and teleport-out once, and never picks teleport-in directly. |
| CustomPonies.Split | src/uk/cpjsmith/ponypaper/AllPonies.java:602-604 | Splitting on ',' yields at least one part, and no part contains a comma. |
| CustomPonies.JoinSplit | src/uk/cpjsmith/ponypaper/AllPonies.java:602-604 | Splitting loses nothing: joining the parts with commas gives back the original list. |
| CustomPonies.SplitJoin | src/uk/cpjsmith/ponypaper/AllPonies.java:602-604 | Joining comma-free names and splitting again gives back exactly those names, in order and with repeats. |
| CustomPonies.SplitCons | src/uk/cpjsmith/ponypaper/AllPonies.java:602-604 | A comma-free name followed by a comma splits off as the first part. |
| CustomPonies.SplitAtom | src/uk/cpjsmith/ponypaper/AllPonies.java:602-604 | A comma-free name splits into itself alone. |
| CustomPonies.Lookup | src/uk/cpjsmith/ponypaper/AllPonies.java:558 | A map lookup is null exactly when the name is not a key; otherwise it is one of the bound nodes. |
| CustomPonies.Resolve | src/uk/cpjsmith/ponypaper/AllPonies.java:555-561 | The resolved list has the length of the name list, and entry j is the lookup of name j. Order and repeats are kept, and undeclared names give null. |
| CustomPonies.GetActions | src/uk/cpjsmith/ponypaper/AllPonies.java:555-561 | The array loop computes exactly the resolution of the names. |
| CustomPonies.ResolveWeight | src/uk/cpjsmith/ponypaper/AllPonies.java:555-561 | When no two names share a node, a node occurs in the resolved list exactly as often as its name occurs in the name list. |
| CustomPonies.ResolveDeclared | src/uk/cpjsmith/ponypaper/AllPonies.java:555-561 | When every name is declared and every bound node is in the action set, the resolved list is non-empty, has no null, and stays within the action set. |
| CustomPonies.LastIndex | src/uk/cpjsmith/ponypaper/AllPonies.java:595-597 | The last position declaring a name, or -1 exactly when the name is not declared. No later position declares it. |
| CustomPonies.LastDecl | src/uk/cpjsmith/ponypaper/AllPonies.java:595-597 | The map after pass 1's puts, name to declaration: the last declaration's name is bound to that declaration, so a later put of a name overwrites an earlier one. |
| CustomPonies.LastDeclExtend | src/uk/cpjsmith/ponypaper/AllPonies.java:595-597 | Putting one more declaration overwrites that name's entry and leaves the others alone. |
| CustomPonies.LastDeclKeys | src/uk/cpjsmith/ponypaper/AllPonies.java:595-597 | After all puts, the map's keys are exactly the declared names. |
| CustomPonies.LastDeclIsLast | src/uk/cpjsmith/ponypaper/AllPonies.java:595-597 | After all puts, each name is bound to its last declaration, as found by LastIndex. |
| CustomPonies.ValuesOf | src/uk/cpjsmith/ponypaper/AllPonies.java:607 | values().toArray(new PonyAction[size()]): one entry per key, so the length is the map's size. Over a map where no two names share a node, every bound node appears exactly once, in an order left open. |
| CustomPonies.DeclareActions | src/uk/cpjsmith/ponypaper/AllPonies.java:595-597 | Pass 1: the keys are the declared names, each bound to a distinct fresh node. That node has the clip of the name's last declaration and no port tag. |
| CustomPonies.AttachOne | src/uk/cpjsmith/ponypaper/AllPonies.java:600-604 | One iteration of pass 2: the node gets the three resolved lists of the declaration. |
| CustomPonies.AttachLists | src/uk/cpjsmith/ponypaper/AllPonies.java:599-605 | Pass 2: every bound node carries the resolved waiting, moving and drag lists of its name's last declaration, resolved against the complete map. |
| CustomPonies.MakeCustomPony | src/uk/cpjsmith/ponypaper/AllPonies.java:590-609 | The character's actions are exactly the map's values, each once, one per declared name. Every node carries its last declaration's clip and resolved lists. The start list is the resolved start names. |
| CustomPonies.ListClosed | src/uk/cpjsmith/ponypaper/AllPonies.java:555-561 | A list of a validated definition resolves to a non-empty list inside the action set. |
| CustomPonies.NodeClosed | src/uk/cpjsmith/ponypaper/AllPonies.java:599-605 | Each node of a character built from a validated definition has non-empty lists inside the action set. |
| CustomPonies.CustomValid | src/uk/cpjsmith/ponypaper/AllPonies.java:607-608 | A character built from a validated definition satisfies the character invariant: closure and non-emptiness. |
| CustomPonies.MakeValidatedPony | src/uk/cpjsmith/ponypaper/AllPonies.java:581-582 | Validate, then build: the resulting character is valid. |
| XmlFilter.Accept | src/uk/cpjsmith/ponypaper/AllPonies.java:20-25 | The filter accepts a file name exactly when it is some stem followed by ".xml", compared case-sensitively. |
| XmlFilter.AcceptsXmlName | src/uk/cpjsmith/ponypaper/AllPonies.java:20-25 | Every name made of a stem followed by ".xml" ends with ".xml", so the filter accepts it. |
| XmlFilter.AcceptedHasStem | src/uk/cpjsmith/ponypaper/AllPonies.java:20-25 | Every accepted name is a stem followed by ".xml". |
| XmlFilter.RejectsNearMisses | src/uk/cpjsmith/ponypaper/AllPonies.java:20-25 | Upper-case ".XML", text after ".xml", and the bare "xml" are all rejected. |

## Left out

- Frames: the clip of an action is an opaque identifier: the resource name for a built-in character, the declared frame source for a custom one. Loading frames through `Resources` is not modelled.
- The registry (`getPonies`, 40-77) is left out. It filters the built-in characters by user preferences and then calls the loader.
- The loader (`loadCustomPonies`, 563-588) is left out because it is file I/O. It lists the directory, creates a marker file, parses XML and logs exceptions. Its validate-then-build step is `MakeValidatedPony`.
- Parsing a definition document and `PonyDefinition.validate` are not part of this model. What validation guarantees is stated as `ValidDefinition`: every action gives all three lists, and every name in them and in the start list is a non-empty declared name.
- Random selection of the next action is not modelled; weights are stated as multiplicities in the candidate lists.
- CustomPonies.Split: splits on every ',' and keeps every empty part. Java `String.split` drops trailing empty parts, so a list ending in ',' differs. `ValidDefinition` rules such lists out, because it requires non-empty names.
- CustomPonies.MakeCustomPony: the port tag of a custom action is taken to be none. The `PonyAction` constructor that takes a definition entry is not part of this model.
- CustomPonies.ValuesOf: the order of `HashMap.values()` is left open. Only the set of nodes, each once, and their number are stated.
- BuiltInPonies.Build: each hand-written builder's sequence of setter calls is represented by that character's table and run by the one generic `Build`. Java arrays shared between several setter calls (for example `justStand`) become sequence values, so their aliasing is not modelled. The code never mutates them after construction.
- The built-in builders' contracts state the exact graph through `Realizes` and the table. Weights are spelled out as lemmas only for Fluttershy, Rainbow Dash and Sunset Shimmer; for the other characters they follow from `RealizesWeight` and the table.
