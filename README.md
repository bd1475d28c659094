# A verified model of the UAV design tool's core

This project models, in Dafny, the core of a Unity-based drone design and evaluation
tool. A vehicle is described by a design string, and the tool turns that string into a
flyable vehicle in four steps.

1. **Parse the design.** The grammar has three kinds of token:
   - Node tokens are `*` followed by an identifier character, the x and z grid letters, a
     type digit, and a run of `+`/`-` size marks.
   - Edge tokens are `^` followed by two identifier characters.
   - The string ends with a `,capacity,controller` suffix.
2. **Assemble the joints and connectors.** The designer replays every edge onto a joint
   graph and a connector graph, starting from a single base joint. The replay order comes
   from an assembly sequence: the first edge into each node is filed under that node's id,
   and every later one (a cycle edge) is deferred past the largest id. An edge whose end
   joint already exists only closes a loop.
3. **Build the vehicle.** The quadrant-motor layout sorts the parts into quadrants and
   derives each part's mass and drag from its volume and kind. It finds the main
   structure, computes what is attached to it, and derives the battery energy, the cost
   and the motor thrusts.
4. **Fly it.** A fixed 0.02 s tick drives:
   - a PID controller whose integral is clamped to [-20, 20];
   - sensors that wrap Euler angles into (-180, 180];
   - the physics step, which spends battery energy, enforces the stand-down and runaway
     guards, tracks the height, and reports a hit.

## Modules

| module | file | what it holds |
|---|---|---|
| `Basics` | `basics.dfy` | `Option`, vectors, and the small arithmetic and sequence helpers |
| `Joints` | `joint_info.dfy` | the node token decoder (`JointInfo`) and the identifier table |
| `Connectors` | `connector_info.dfy` | the edge token decoder (`ConnectorInfo`) |
| `DesignTokens` | `design_tokens.dfy` | how a design string splits into node tokens, edge tokens and the suffix |
| `AssemblySequence` | `assembly_sequence.dfy` | the keyed node dictionary, filing and deferring edges, and the direction of an edge |
| `Designer` | `designer.dfy` | the `UAVDesigner` class: starting joint, connectors, assembly replay, sizing, scaling and capacity |
| `VehicleLayout` | `vehicle_layout.dfy` | the `QuadrantMotorVehicleLayout` class: quadrants, masses, main structure, attachment, energy and cost |
| `Pid` | `pid_controller.dfy` | the `PIDController` class |
| `Sensors` | `sensors.dfy` | angle wrapping and the attitude errors |
| `Physics` | `uav_physics.dfy` | the `Collision` and `UAVPhysics` classes and the per-tick force step |

## Behaviour of the code worth knowing

- **No node capacity check.** Nothing limits the number of nodes in a design. An id outside
  the 42-entry identifier table makes getNodeIDAsString throw, and that abandons the parse
  (`AssemblySequence.Keyed` is `None`).
- **Unconnected components throw.** When attachedObjects finds no eligible pair,
  `closestUnconnected` stays null and the next access throws, which ends the attach loop.
  A body only counts as connected when its mass is above 0.9.
- **Runaway guard on x only.** The guard tests the absolute x coordinate against 2000 and
  against 4000 and never tests z.
- **Hit velocity is unscaled.** Every other branch reports 0.5418 times the planar speed;
  the hit branch reports the raw planar speed.
- **No Failure verdict.** Without a main structure makePrototype returns false and the
  evaluation ends with "nostructure". The Failure verdict is declared but never produced.
- **Node tokens keep the suffix without edges.** fromstring cuts node tokens at the first `^`
  only; see "## Findings". The model of fromstring (`Designer.FromStringSpec`) does the same.

## Model

| member | source | states |
|---|---|---|
| Joints.TypeOfCode | Assets/Projects/designtool/Scripts/JointInfo.cs:246 | casting a parsed digit 0..9 to the component type gives a type whose integer value is that digit |
| Joints.TypeCodeInjective | Assets/Projects/designtool/Scripts/JointInfo.cs:230-246 | the digit a type is written as (its integer value) casts back to the same type, including the unnamed values 5..9 |
| Joints.NodeIndexOfChar | Assets/Projects/designtool/Scripts/JointInfo.cs:156-162 | the index of the character at table position i is i, for every i in [0, 42) (see also line 60) |
| Joints.NodeCharOfIndex | Assets/Projects/designtool/Scripts/JointInfo.cs:156-162 | a character whose index is not -1 is the table entry at that index |
| Joints.NodeCharMatches | Assets/Projects/designtool/Scripts/JointInfo.cs:156-162 | table entry i is c exactly when the index of c is i |
| Joints.NodeIndexTable | Assets/Projects/designtool/Scripts/JointInfo.cs:156-162 | the node index of c is the first table position of c; it is -1 exactly for characters outside the 42-entry table (see also line 60) |
| Joints.GetNodeIndexByChar | Assets/Projects/designtool/Scripts/JointInfo.cs:156-162 | the linear search returns the node index of c (its table position, or -1) |
| Joints.GetPositionIndex | Assets/Projects/designtool/Scripts/JointInfo.cs:192-199 | the search that keeps the last match returns the table position minus 12, or -100000 - 12 without a match |
| Joints.PositionRoundTrip | Assets/Projects/designtool/Scripts/JointInfo.cs:182-199 | getPositionIndex(getPositionChar(p)) == p for every p in [-12, 13] (see also line 67) |
| Joints.PositionCharOfIndex | Assets/Projects/designtool/Scripts/JointInfo.cs:182-199 | every position character reads as an in-range position whose character is itself (see also line 67) |
| Joints.UnknownPosition | Assets/Projects/designtool/Scripts/JointInfo.cs:192-199 | a character outside the position table reads as -100012 |
| Joints.GetSizeString | Assets/Projects/designtool/Scripts/JointInfo.cs:169-175 | the string has length abs(n); it is all `+` when n > 0, all `-` when n < 0 and empty when n == 0 |
| Joints.SizeRoundTrip | Assets/Projects/designtool/Scripts/JointInfo.cs:169-175 | decoding the size run of n (its length, negated when it starts with `-`) gives back n (see also lines 249-254) |
| Joints.NextComponentTypeCycle | Assets/Projects/designtool/Scripts/JointInfo.cs:206-218 | five applications return each named type, and fewer than five never do |
| Joints.DecodeGrammar | Assets/Projects/designtool/Scripts/JointInfo.cs:238-256 | fromString applied to grammar() without its leading `*` recovers index, x, z, component type and size, for an index in [0, 42) and positions in [-12, 13]; the other fields keep their prior values (see also lines 225-232) |
| Joints.DecodeNonDigitType | Assets/Projects/designtool/Scripts/JointInfo.cs:243-246 | a non-digit type character throws after index, x and z were assigned: those three hold the new values and type and size keep the old ones (see also lines 258-261) |
| Joints.IdCounter.constructor | Assets/Projects/designtool/Scripts/JointInfo.cs:28 | the static counter starts at 0 |
| Joints.IdCounter.Reset | Assets/Projects/designtool/Scripts/UAVDesigner.cs:170 | resetting sets the counter to 0 (see also line 207) |
| Joints.JointInfo.constructor | Assets/Projects/designtool/Scripts/JointInfo.cs:96-109 | the fields are stored as given, the index is the counter's old value and the counter grows by exactly 1 |
| Joints.JointInfo.FromGrammar | Assets/Projects/designtool/Scripts/JointInfo.cs:115-119 | the string constructor's state is the decoding of the token from the field defaults; the counter is not touched (see also line 78) |
| Joints.JointInfo.FromString | Assets/Projects/designtool/Scripts/JointInfo.cs:238-262 | the new state is the step-by-step decoding of the token from the old state, stopping where an exception would be thrown |
| Connectors.ConnectorGrammar | Assets/Projects/designtool/Scripts/ConnectorInfo.cs:50-53 | the token exists exactly when both ends lie in [0, 42); it has length 3 and starts with `^` |
| Connectors.ConnectorRoundTrip | Assets/Projects/designtool/Scripts/ConnectorInfo.cs:39-52 | getNodeIndexByChar of characters 1 and 2 of grammar() recovers x1 and x2 |
| Connectors.ConnectorGrammarIgnoresFlag | Assets/Projects/designtool/Scripts/ConnectorInfo.cs:50-53 | addedComponent does not appear in the token: connectors with the same ends print the same token |
| Connectors.ConnectorGrammarInjective | Assets/Projects/designtool/Scripts/ConnectorInfo.cs:50-53 | connectors that print the same token have the same ends |
| DesignTokens.Split | Assets/Projects/designtool/Scripts/UAVDesigner.cs:849-850 | String.Split gives at least one piece, no piece holds the separator, and joining the pieces with the separator gives back the text |
| DesignTokens.SplitJoin | Assets/Projects/designtool/Scripts/UAVDesigner.cs:849-850 | splitting the join of separator-free pieces returns exactly those pieces |
| DesignTokens.SplitFirstPiece | Assets/Projects/designtool/Scripts/UAVDesigner.cs:849-850 | the first piece is the text before the first separator |
| DesignTokens.NodeGrammarIsTokenText | Assets/Projects/designtool/Scripts/JointInfo.cs:225-232 | a node's grammar() starts with `*` and the rest holds none of `*`, `^` and `,` |
| DesignTokens.DesignHead | Assets/Projects/designtool/Scripts/UAVDesigner.cs:850 | the first `,` piece of a well-formed design string is its node and edge text |
| DesignTokens.EdgeTokensOfDesign | Assets/Projects/designtool/Scripts/UAVDesigner.cs:850 | a string made of node tokens, edge tokens and a `,` suffix gives back exactly its edge tokens |
| DesignTokens.NodeTokensOfDesign | Assets/Projects/designtool/Scripts/UAVDesigner.cs:849 | with at least one edge, the node tokens as written are exactly the design's node tokens |
| DesignTokens.NodeTokensWithoutEdges | Assets/Projects/designtool/Scripts/UAVDesigner.cs:849 | with no edge, the node tokens as written are the design's, except that the last one carries the whole `,capacity,controller` suffix |
| DesignTokens.NodeTokensAbsorbSuffix | Assets/Projects/designtool/Scripts/UAVDesigner.cs:849 | `*aMM0+,5,3` gives the node token `aMM0+,5,3`, which decodes to size 5; cutting at `,` first gives `aMM0+` and size 1 (see also lines 861-862, JointInfo.cs lines 249-254) |
| DesignTokens.NodeTokensCutOfDesign | Assets/Projects/designtool/Scripts/UAVDesigner.cs:849-850 | when the text is cut at the first `,` as for edges, every well-formed design gives back exactly its node tokens, with or without edges |
| DesignTokens.NatStringValue | Assets/Projects/designtool/Scripts/UAVDesigner.cs:853 | the decimal numeral of n has the value n |
| DesignTokens.ParseNatString | Assets/Projects/designtool/Scripts/UAVDesigner.cs:1056 | the number read from the numeral of n is n |
| DesignTokens.ParseTruncates | Assets/Projects/designtool/Scripts/UAVDesigner.cs:1056 | the (int) cast cuts the fraction toward zero (`5.9` gives 5, `-2.5` gives -2), and text that is not a number fails to parse |
| DesignTokens.Capacity | Assets/Projects/designtool/Scripts/UAVDesigner.cs:1052-1063 | without a second `,` field the capacity is -1 |
| DesignTokens.CapacityIsSecondField | Assets/Projects/designtool/Scripts/UAVDesigner.cs:1052-1063 | the capacity is the parsed second `,` field, or -1 when it does not parse |
| DesignTokens.CapacityOfDesign | Assets/Projects/designtool/Scripts/UAVDesigner.cs:1052-1063 | a design string with suffix `,cap,ctrl` reads back capacity cap, for every cap below 2^31 that the (int) cast can hold (see also line 853) |
| DesignTokens.SharedKeyTokens | Assets/Projects/designtool/Scripts/UAVDesigner.cs:849-850 | `*aMM0,*aMM0` splits, as written, into the node tokens `aMM0,` and `aMM0`; cut at `,` into `aMM0` alone; it has no edge tokens |
| DesignTokens.CapacityMissing | Assets/Projects/designtool/Scripts/UAVDesigner.cs:1052-1063 | a text without `,` has capacity -1 (the exception path) |
| AssemblySequence.BuildNodes | Assets/Projects/designtool/Scripts/UAVDesigner.cs:858-863 | the loop that fills `nodes` ends with the node dictionary of the tokens, or abandons the parse where Dictionary.Add or getNodeIDAsString throws |
| AssemblySequence.DecodeToken | Assets/Projects/designtool/Scripts/UAVDesigner.cs:861-862 | `new JointInfo(t)` holds the decoding of t from the field defaults |
| AssemblySequence.KeyedAbandoned | Assets/Projects/designtool/Scripts/UAVDesigner.cs:858-863 | once a token throws, the whole dictionary is abandoned (see also lines 842 and 1037-1040) |
| AssemblySequence.KeyedDefined | Assets/Projects/designtool/Scripts/JointInfo.cs:125-128 | the dictionary exists exactly when every joint's index lies in the table and no two joints share an index (see also UAVDesigner.cs line 862) |
| AssemblySequence.KeyedMap | Assets/Projects/designtool/Scripts/UAVDesigner.cs:862 | an existing dictionary holds every joint under its identifier character, and every key belongs to some joint |
| AssemblySequence.NodeTableContents | Assets/Projects/designtool/Scripts/UAVDesigner.cs:858-863 | the node dictionary of the tokens exists exactly when they decode to distinct in-table indices, and then maps each identifier to its decoded joint |
| AssemblySequence.SequenceEdges | Assets/Projects/designtool/Scripts/UAVDesigner.cs:868-905 | the two loops build the assembly sequence (the steps and the last key), or abandon the parse on an edge token shorter than two characters |
| AssemblySequence.FileEdges | Assets/Projects/designtool/Scripts/UAVDesigner.cs:879-898 | the filing loop ends with the buckets of the edges: each token is filed under its destination or appended to the overflow list, and the maximum is the running maximum |
| AssemblySequence.DeferOverflow | Assets/Projects/designtool/Scripts/UAVDesigner.cs:901-905 | the overflow loop stores each deferred token under the next key past the running maximum |
| AssemblySequence.FiledKeys | Assets/Projects/designtool/Scripts/UAVDesigner.cs:889-896 | the keys filed are exactly the destinations met, and the maximum is the largest destination (0 at least) |
| AssemblySequence.RepeatIsFiled | Assets/Projects/designtool/Scripts/UAVDesigner.cs:890-893 | a token goes to the overflow list exactly when an earlier token had the same destination |
| AssemblySequence.FiledOverflow | Assets/Projects/designtool/Scripts/UAVDesigner.cs:892-893 | the overflow list is the cycle edges in encounter order |
| AssemblySequence.FiledFirst | Assets/Projects/designtool/Scripts/UAVDesigner.cs:890-891 | the first token reaching a destination is the one filed under it |
| AssemblySequence.DeferContents | Assets/Projects/designtool/Scripts/UAVDesigner.cs:901-905 | deferring keeps every filed key, adds keys max+1 .. max+k for the k overflow tokens in order, and ends at max+k |
| AssemblySequence.RepeatsAt | Assets/Projects/designtool/Scripts/UAVDesigner.cs:892-893 | cycle edge i sits in the overflow list right after the cycle edges before it |
| AssemblySequence.RepeatsIndex | Assets/Projects/designtool/Scripts/UAVDesigner.cs:892-893 | every overflow position belongs to some cycle edge |
| AssemblySequence.FirstToReach | Assets/Projects/designtool/Scripts/UAVDesigner.cs:890-891 | every destination met is first reached by an edge that is not a cycle edge |
| AssemblySequence.RepeatsMonotone | Assets/Projects/designtool/Scripts/UAVDesigner.cs:901-905 | a later cycle edge has more cycle edges before it, so it gets a larger key |
| AssemblySequence.DeferredKey | Assets/Projects/designtool/Scripts/UAVDesigner.cs:901-905 | a cycle edge is stored under max + 1 + the number of cycle edges before it (see also lines 892-893) |
| AssemblySequence.PrimaryKey | Assets/Projects/designtool/Scripts/UAVDesigner.cs:890-891 | the first edge reaching a destination stays stored under that destination after deferring (see also lines 901-905) |
| AssemblySequence.SequenceDefined | Assets/Projects/designtool/Scripts/UAVDesigner.cs:886-887 | the sequence exists exactly when every edge token has at least two characters |
| AssemblySequence.SequenceStoresEveryEdge | Assets/Projects/designtool/Scripts/UAVDesigner.cs:879-905 | every edge token is stored under its key |
| AssemblySequence.SequenceKeysDistinct | Assets/Projects/designtool/Scripts/UAVDesigner.cs:879-905 | distinct edges get distinct keys, so no edge is stored twice or overwritten |
| AssemblySequence.SequenceKeysUsed | Assets/Projects/designtool/Scripts/UAVDesigner.cs:879-905 | every stored key is the key of some edge |
| AssemblySequence.SequenceDeferredAbove | Assets/Projects/designtool/Scripts/UAVDesigner.cs:901-905 | every cycle edge is keyed strictly above every destination index, and the last key replayed is the largest destination plus the number of cycle edges (see also lines 896 and 944) |
| AssemblySequence.DirectionOfStep | Assets/Projects/designtool/Scripts/UAVDesigner.cs:972-991 | a direction is chosen exactly when the end is one grid step from the start; the chosen handle spans exactly that step (start-end (-1,0) posx, (1,0) negx, (0,-1) posz, (0,1) negz) |
| Designer.StartedGood | Assets/Projects/designtool/Scripts/UAVDesigner.cs:198-216 | the graphs addStartingJoint leaves behind (the base joint alone, id 0 at the origin and locked, the counter at 1) satisfy the designer's invariant, and the payload is untouched |
| Designer.IndexAt | Assets/Projects/designtool/Scripts/UAVDesigner.cs:607-622 | the indexa/indexb search yields -1 when no joint stands at the position, and otherwise the id of a joint standing there |
| Designer.IndexAtUnique | Assets/Projects/designtool/Scripts/UAVDesigner.cs:607-622 | with unique positions the search yields the id of the one joint standing there |
| Designer.LastWithIndex | Assets/Projects/designtool/Scripts/UAVDesigner.cs:639-649 | getJointByChar yields the last joint carrying the id, or none, and no later joint carries it |
| Designer.AddConnectorKeepsGood | Assets/Projects/designtool/Scripts/UAVDesigner.cs:551-573 | adding a connector keeps joint positions unique, ids below the counter and the base joint first |
| Designer.AddConnectorJoints | Assets/Projects/designtool/Scripts/UAVDesigner.cs:551-573 | a joint is created at the end point exactly when none stands there (one unlocked joint taking the counter as id, the counter raised by one); afterwards a joint stands there |
| Designer.AddConnectorRecords | Assets/Projects/designtool/Scripts/UAVDesigner.cs:576-624 | a connector whose centre is taken is not added; otherwise the handle is hidden, the centre recorded and one connector appended from the start joint's id, to the new joint's id when one was created, with addedComponent exactly when the end joint is new |
| Designer.AddConnectorCloses | Assets/Projects/designtool/Scripts/UAVDesigner.cs:551-624 | a connector onto an existing joint adds no joint and records a connector between the two existing ids with addedComponent false |
| Designer.AssembleKeepsGood | Assets/Projects/designtool/Scripts/UAVDesigner.cs:658-676 | clicking a shown handle of the joint named by the character keeps the designer's invariant |
| Designer.ReconcileAll | Assets/Projects/designtool/Scripts/UAVDesigner.cs:995-1013 | the reconciliation pass keeps one entry per joint |
| Designer.ReconcileNext | Assets/Projects/designtool/Scripts/UAVDesigner.cs:998-1011 | one step of the pass keeps the joints before it, never moves the joint and leaves a locked joint alone |
| Designer.ReconcileSucceeds | Assets/Projects/designtool/Scripts/UAVDesigner.cs:1004 | the pass raises no exception exactly when every unlocked joint at the end point has an id inside the identifier table |
| Designer.ReconcileTargets | Assets/Projects/designtool/Scripts/UAVDesigner.cs:998-1011 | after a successful pass every unlocked joint at the end point carries the end character's id and is locked; every other joint is unchanged |
| Designer.ReconcileCounter | Assets/Projects/designtool/Scripts/UAVDesigner.cs:1004-1008 | after a successful pass the counter is max(id+1, counter) when some joint was renamed, and unchanged otherwise |
| Designer.ReconcileKeepsPlaces | Assets/Projects/designtool/Scripts/UAVDesigner.cs:995-1013 | the pass moves no joint and leaves locked joints unchanged, even when it is cut short |
| Designer.ReconcileKeepsIds | Assets/Projects/designtool/Scripts/UAVDesigner.cs:1006-1008 | the counter never decreases and every id stays below it |
| Designer.ReconcileAbandoned | Assets/Projects/designtool/Scripts/UAVDesigner.cs:995-1013 | once the pass has thrown, the remaining joints pass through unchanged (see also lines 1037-1040) |
| Designer.AbandonedAt | Assets/Projects/designtool/Scripts/UAVDesigner.cs:995-1013 | the joints after a thrown pass are those handled so far followed by the untouched rest (see also lines 1037-1040) |
| Designer.ReconcileKeepsGood | Assets/Projects/designtool/Scripts/UAVDesigner.cs:995-1013 | the reconciliation keeps the designer's invariant |
| Designer.ReplayAbandoned | Assets/Projects/designtool/Scripts/UAVDesigner.cs:944-1015 | once a replay step has thrown, later keys change nothing (see also lines 1037-1040) |
| Designer.ReplayRestrict | Assets/Projects/designtool/Scripts/UAVDesigner.cs:944-947 | the replay of keys 0 .. n-1 depends only on the edges stored under those keys, so other keys (-1 among them) are never replayed |
| Designer.ReplayKeyKeepsGood | Assets/Projects/designtool/Scripts/UAVDesigner.cs:946-1013 | one replay step (direction choice, assemble, reconciliation) keeps the designer's invariant |
| Designer.ReplayKeepsGood | Assets/Projects/designtool/Scripts/UAVDesigner.cs:944-1015 | the whole replay keeps the designer's invariant, whether or not it is cut short |
| Designer.FromStringCutAgrees | Assets/Projects/designtool/Scripts/UAVDesigner.cs:849-850 | for every well-formed design with at least one edge, fromstring as written and fromstring with node tokens cut at `,` give the same graphs and the same outcome |
| Designer.FromStringSharedKey | Assets/Projects/designtool/Scripts/UAVDesigner.cs:849-863 | as written, `*aMM0,*aMM0` gives two node tokens with the key `a`, so nodes.Add throws and the old graphs stay with only the capacity stored; cut at `,` the graphs are rebuilt from the base joint (see also lines 1037-1040) |
| Designer.SharedKeySplit | Assets/Projects/designtool/Scripts/UAVDesigner.cs:849-863 | any text whose as-written node tokens clash on the key `a` is abandoned with the old graphs and its capacity stored, while its cut reading rebuilds from the base joint |
| Designer.SharedKeyTable | Assets/Projects/designtool/Scripts/UAVDesigner.cs:858-863 | the tokens `aMM0,` and `aMM0` have no node table because their keys clash; the single token `aMM0` has one |
| Designer.RebuildResult | Assets/Projects/designtool/Scripts/UAVDesigner.cs:853-941 | fromstring stores the string's capacity; a node table or edge list that cannot be read leaves the graphs as they were; otherwise the graphs are rebuilt from the base joint and keep the designer's invariant (see also lines 1037-1040) |
| Designer.ReplayPayload | Assets/Projects/designtool/Scripts/UAVDesigner.cs:944-1015 | the replay leaves the payload alone |
| Designer.SizeUpFacts | Assets/Projects/designtool/Scripts/UAVDesigner.cs:495-509 | the scale-up loop adds one to sizedata and a quarter to the scale per step, stops at the target or after the 100 steps, and never passes a target it started below (see also lines 689-695) |
| Designer.SizeDownFacts | Assets/Projects/designtool/Scripts/UAVDesigner.cs:517-533 | the scale-down loop removes at most one size per step, only while the scale exceeds 0.8, never goes below the target, and stops early only at scale 0.8 or when the shared 100 steps run out (see also lines 700-705) |
| Designer.SizedScale | Assets/Projects/designtool/Scripts/UAVDesigner.cs:685-706 | sizing changes the scale by a quarter per size step and no other field of the joint |
| Designer.SizedUpReaches | Assets/Projects/designtool/Scripts/UAVDesigner.cs:685-706 | sizing up from below reaches the target when it is at most 100 steps away, and otherwise stops after 100 steps |
| Designer.SizedDownStops | Assets/Projects/designtool/Scripts/UAVDesigner.cs:685-706 | sizing down never passes the target, takes at most 100 steps, and stops short only at scale 0.8 or after 100 steps |
| Designer.SizedKeepsGood | Assets/Projects/designtool/Scripts/UAVDesigner.cs:685-706 | sizing a joint keeps the designer's invariant |
| Designer.UAVDesigner.constructor | Assets/Projects/designtool/Scripts/UAVDesigner.cs:55-71 | a new designer has empty graphs and the payload 2 (see also line 46) |
| Designer.UAVDesigner.AddStartingJoint | Assets/Projects/designtool/Scripts/UAVDesigner.cs:198-216 | the graphs are reset, the counter set to 0 and the locked base joint added with id 0 at the origin |
| Designer.UAVDesigner.JointByChar | Assets/Projects/designtool/Scripts/UAVDesigner.cs:639-649 | the search loop finds the last joint carrying the character's id |
| Designer.UAVDesigner.AddConnector | Assets/Projects/designtool/Scripts/UAVDesigner.cs:544-627 | the new graphs are those addConnector is specified to produce from the old ones |
| Designer.UAVDesigner.ConnectorEnds | Assets/Projects/designtool/Scripts/UAVDesigner.cs:607-622 | the loop finds the ids of the last joints at the start and at the end, or -1 |
| Designer.UAVDesigner.Assemble | Assets/Projects/designtool/Scripts/UAVDesigner.cs:658-676 | the handle is clicked only when the named joint exists and the handle is still shown |
| Designer.UAVDesigner.Reconcile | Assets/Projects/designtool/Scripts/UAVDesigner.cs:995-1013 | the loop leaves the joints and the counter the reconciliation pass describes, and reports whether it threw |
| Designer.UAVDesigner.ReconcileJoint | Assets/Projects/designtool/Scripts/UAVDesigner.cs:998-1011 | the loop body changes only the joint at position i, as one step of the pass |
| Designer.UAVDesigner.ReplayStep | Assets/Projects/designtool/Scripts/UAVDesigner.cs:946-1013 | one key of the replay loop, failing on a short token or an end missing from the node table |
| Designer.UAVDesigner.Replay | Assets/Projects/designtool/Scripts/UAVDesigner.cs:944-1015 | the loop replays keys 0 .. max in increasing order and stops at the first exception |
| Designer.UAVDesigner.FromString | Assets/Projects/designtool/Scripts/UAVDesigner.cs:839-1015 | fromstring up to the replay, with the node tokens split as written: capacity, node table, assembly sequence, reset and replay, with an exception abandoning the rest |
| Designer.UAVDesigner.ScaleUp | Assets/Projects/designtool/Scripts/UAVDesigner.cs:495-509 | a joint with a component grows by a quarter and counts one size up; nothing else changes |
| Designer.UAVDesigner.ScaleDown | Assets/Projects/designtool/Scripts/UAVDesigner.cs:517-533 | a joint with a component above scale 0.8 shrinks by a quarter and counts one size down; nothing else changes |
| Designer.UAVDesigner.SizeComponent | Assets/Projects/designtool/Scripts/UAVDesigner.cs:685-706 | the two counter-bounded loops leave the joint sized as Sized describes, and the other joints alone |
| VehicleLayout.QuadrantRegion | Assets/Projects/designtool/Scripts/UAVQuadrantMotorPartition.cs:155-172 | the if-chain assigns a quadrant exactly when the rotated offset lies in that quadrant's region (both directions); offsets within the tolerance of the centre or exactly on a tolerance line keep the empty quadrant (see also line 435) |
| VehicleLayout.QuadrantOpposite | Assets/Projects/designtool/Scripts/UAVQuadrantMotorPartition.cs:155-172 | mirroring the offset through the centre maps every quadrant to its opposite: FRONTLEFT and BACKRIGHT, FRONTRIGHT and BACKLEFT, FRONT and BACK, LEFT and RIGHT |
| VehicleLayout.MassRulesExclusive | Assets/Projects/designtool/Scripts/UAVQuadrantMotorPartition.cs:189-249 | the name prefixes that select the structure, motor, connector and foil mass rules exclude one another, so each part gets the mass of its own category |
| VehicleLayout.WeightsAreMasses | Assets/Projects/designtool/Scripts/UAVQuadrantMotorPartition.cs:189-249 | each weight total is the sum of the Rigidbody masses of its category (vol/20, vol/10, vol/71), and the connection total stays 0 (see also lines 76-79) |
| VehicleLayout.MotorThrustAboveBase | Assets/Projects/designtool/Scripts/UAVQuadrantMotorPartition.cs:363-373 | a motor of positive size is rated above the base thrust of 10 |
| VehicleLayout.MotorsOfParts | Assets/Projects/designtool/Scripts/UAVQuadrantMotorPartition.cs:148-184 | every motor entry copies a part whose name starts with `m`, carrying that part's quadrant and maximum thrust |
| VehicleLayout.MotorsInMembers | Assets/Projects/designtool/Scripts/UAVQuadrantMotorPartition.cs:381-391 | getMotors(q) holds exactly the motors whose quadrant is q |
| VehicleLayout.GetMotors | Assets/Projects/designtool/Scripts/UAVQuadrantMotorPartition.cs:381-391 | the loop collects the motors of the quadrant in dictionary order |
| VehicleLayout.SqDist | Assets/Projects/designtool/Scripts/UAVQuadrantMotorPartition.cs:206-208 | the squared distance is never negative, so comparing it compares the distances (see also line 330) |
| VehicleLayout.MainOf | Assets/Projects/designtool/Scripts/UAVQuadrantMotorPartition.cs:202-214 | the main structure, when there is one, is a part named as a structure |
| VehicleLayout.MainOfNearest | Assets/Projects/designtool/Scripts/UAVQuadrantMotorPartition.cs:202-214 | there is no main structure exactly when no part is a structure; otherwise it is nearest the anchor of all structures and strictly nearer than every structure before it, so ties keep the first (see also lines 262-263) |
| VehicleLayout.ScanRowFound | Assets/Projects/designtool/Scripts/UAVQuadrantMotorPartition.cs:328-336 | one pass of the inner loop keeps the pair it had or takes a heavier-than-0.9 connected body strictly nearer than the minimum so far |
| VehicleLayout.ScanRowMinimal | Assets/Projects/designtool/Scripts/UAVQuadrantMotorPartition.cs:328-336 | after the inner loop, the minimum is at most the distance to every connected body heavier than 0.9 |
| VehicleLayout.ScanFound | Assets/Projects/designtool/Scripts/UAVQuadrantMotorPartition.cs:321-337 | the pair found is an unconnected body and a heavy connected body within the initial bound, at the reported distance |
| VehicleLayout.ScanMinimal | Assets/Projects/designtool/Scripts/UAVQuadrantMotorPartition.cs:321-337 | the minimum found is at most the distance of every pair of an unconnected body and a heavy connected body |
| VehicleLayout.ScanRowFirst | Assets/Projects/designtool/Scripts/UAVQuadrantMotorPartition.cs:331 | within a row, a later body at an equal distance does not displace the one found |
| VehicleLayout.ScanFirst | Assets/Projects/designtool/Scripts/UAVQuadrantMotorPartition.cs:331 | the chosen pair is strictly nearer than every eligible pair scanned before it, so the first pair found wins ties |
| VehicleLayout.ScanMeaning | Assets/Projects/designtool/Scripts/UAVQuadrantMotorPartition.cs:321-337 | no pair is found exactly when no unconnected body is within the bound of a heavy connected body; otherwise the pair found is eligible and at least as near as every other |
| VehicleLayout.BestPicks | Assets/Projects/designtool/Scripts/UAVQuadrantMotorPartition.cs:321-337 | a found pair that is eligible and no farther than any pair has the meaning the scan promises |
| VehicleLayout.AttachConserves | Assets/Projects/designtool/Scripts/UAVQuadrantMotorPartition.cs:346-347 | the attachment moves bodies from the unconnected list to the end of the connected list and never loses or duplicates one |
| VehicleLayout.AttachCounts | Assets/Projects/designtool/Scripts/UAVQuadrantMotorPartition.cs:340-350 | each iteration makes one fixed joint and moves one body, at most 100 in all; a completed loop leaves no body unconnected unless it hit the 100-iteration bound (see also line 317) |
| VehicleLayout.AttachObjects | Assets/Projects/designtool/Scripts/UAVQuadrantMotorPartition.cs:309-353 | the loop ends with the lists and joints of the attachment, or stops with the NullReferenceException when no pair is found |
| VehicleLayout.AttachStep | Assets/Projects/designtool/Scripts/UAVQuadrantMotorPartition.cs:340-350 | one iteration joins the pair found, moves its unconnected body and records the joint |
| VehicleLayout.ScanPairs | Assets/Projects/designtool/Scripts/UAVQuadrantMotorPartition.cs:320-337 | the nested loops find the pair the scan describes |
| VehicleLayout.BatteryEnergy | Assets/Projects/designtool/Scripts/UAVQuadrantMotorPartition.cs:401-404 | the battery energy is never negative |
| VehicleLayout.BatteryEnergyScale | Assets/Projects/designtool/Scripts/UAVQuadrantMotorPartition.cs:401-404 | the base 17.7 lb structure carries 570 Wh, and a heavier structure carries more |
| VehicleLayout.CostScale | Assets/Projects/designtool/Scripts/UAVQuadrantMotorPartition.cs:414-417 | the base 17.7 lb structure with four motors costs 2878, and each motor adds 50 (see also line 79) |
| VehicleLayout.MassesOf | Assets/Projects/designtool/Scripts/UAVQuadrantMotorPartition.cs:130-249 | there is one Rigidbody mass per part |
| VehicleLayout.CopyStep | Assets/Projects/designtool/Scripts/UAVQuadrantMotorPartition.cs:130-249 | one more part extends the weight totals, the motors, the foils and the masses by that part's own contribution |
| VehicleLayout.MainStep | Assets/Projects/designtool/Scripts/UAVQuadrantMotorPartition.cs:202-214 | one more part changes the main structure exactly as the distance comparison with the current main position says |
| VehicleLayout.QuadrantMotorVehicleLayout.constructor | Assets/Projects/designtool/Scripts/UAVQuadrantMotorPartition.cs:62-66 | a new layout has no motors and no foils |
| VehicleLayout.QuadrantMotorVehicleLayout.GetMotorsOf | Assets/Projects/designtool/Scripts/UAVQuadrantMotorPartition.cs:381-391 | getMotors over the layout's own motors dictionary |
| VehicleLayout.QuadrantMotorVehicleLayout.PlacePart | Assets/Projects/designtool/Scripts/UAVQuadrantMotorPartition.cs:130-249 | one pass of the copy loop adds the part's weights, motor entry, foil entry and mass and updates the main structure |
| VehicleLayout.QuadrantMotorVehicleLayout.RecordPart | Assets/Projects/designtool/Scripts/UAVQuadrantMotorPartition.cs:142-184 | the foil and motor entries and the copy's mass are recorded, and nothing else changes |
| VehicleLayout.QuadrantMotorVehicleLayout.WeighPart | Assets/Projects/designtool/Scripts/UAVQuadrantMotorPartition.cs:186-249 | the weight totals grow by the part's category mass and the main structure is updated; nothing else changes |
| VehicleLayout.QuadrantMotorVehicleLayout.CopyParts | Assets/Projects/designtool/Scripts/UAVQuadrantMotorPartition.cs:124-253 | after the copy loop the totals, motors, foils, masses and main structure are those of all parts (see also lines 76-94 and 115) |
| VehicleLayout.QuadrantMotorVehicleLayout.CopyNext | Assets/Projects/designtool/Scripts/UAVQuadrantMotorPartition.cs:130-249 | one pass of the copy loop keeps the loop's invariant for one more part |
| VehicleLayout.QuadrantMotorVehicleLayout.MakePrototype | Assets/Projects/designtool/Scripts/UAVQuadrantMotorPartition.cs:73-290 | makePrototype fails exactly when there is no structure; otherwise the capacity is added to the main structure's mass and every other body is attached starting from the main structure |
| VehicleLayout.MassAndDrag | Assets/Projects/designtool/Scripts/UAVQuadrantMotorPartition.cs:189-249 | structures get mass vol/20 and drag mass/100, motors vol/10 and mass/400, foils vol/71 and mass/400, connectors mass 0 and drag 0 |
| Pid.PidStep | Assets/Projects/designtool/Scripts/PIDController.cs:47-76 | after a call the integral lies in [-20, 20], the last error is the error just seen, and the gains are those passed in (see also line 39) |
| Pid.IntegralFollowsError | Assets/Projects/designtool/Scripts/PIDController.cs:62-65 | inside the clamp band the integral grows by the tick length times the error; a positive error never lowers it and a negative one never raises it |
| Pid.IntegralTermBounded | Assets/Projects/designtool/Scripts/PIDController.cs:65-66 | the integral term of the output is at most the integral gain times 20 in absolute value |
| Pid.ProductBound | Assets/Projects/designtool/Scripts/PIDController.cs:65-66 | a factor within [-c, c] scales any gain to at most the gain times c in absolute value |
| Pid.SteadyErrorHasNoDerivative | Assets/Projects/designtool/Scripts/PIDController.cs:69-74 | seeing the same error twice in a row makes the derivative term of the second call vanish |
| Pid.FreshAtRest | Assets/Projects/designtool/Scripts/PIDController.cs:47-76 | a fresh controller that sees no error outputs 0 and keeps a zero memory (see also lines 29-34) |
| Pid.IntegralIsSum | Assets/Projects/designtool/Scripts/PIDController.cs:62-65 | over a run of calls whose running integral stays inside the clamp band, the integral is the tick length times the sum of the errors, and the last error is remembered (see also line 72) |
| Pid.PIDController.constructor | Assets/Projects/designtool/Scripts/PIDController.cs:14-34 | a new controller has zero gains and zero memory |
| Pid.PIDController.GetFactorFromPIDController | Assets/Projects/designtool/Scripts/PIDController.cs:47-76 | the fields and the output after a call are those of one controller step on the old fields |
| Sensors.Trunc | Assets/Projects/designtool/Scripts/Sensors.cs:68 | the truncated quotient lies within one of the value toward zero, as C# float remainder needs |
| Sensors.FMod360 | Assets/Projects/designtool/Scripts/Sensors.cs:68 | the float remainder by 360 lies in (-360, 360) and has the sign of the dividend |
| Sensors.WrapAngleTurns | Assets/Projects/designtool/Scripts/Sensors.cs:66-72 | the wrapped angle lies in (-180, 180] and differs from the input by whole turns |
| Sensors.SameTurnClass | Assets/Projects/designtool/Scripts/Sensors.cs:66-72 | two angles in (-180, 180] that differ by whole turns are equal, so the wrap is determined by the direction alone |
| Sensors.WrapAngleIdentity | Assets/Projects/designtool/Scripts/Sensors.cs:66-72 | an angle already in (-180, 180] is left alone |
| Sensors.WrapAnglePeriodic | Assets/Projects/designtool/Scripts/Sensors.cs:66-72 | a full turn does not change the wrapped angle, and wrapping twice is wrapping once |
| Sensors.ErrorRanges | Assets/Projects/designtool/Scripts/Sensors.cs:27-59 | the pitch and roll errors lie in (-180, 180], the forward pitch error in (-196, 164] and the yaw error in (-225, 135]; the yaw and forward pitch errors vanish exactly at 45 and 16 degrees |
| Physics.HoverLatch | Assets/Projects/designtool/Scripts/UAVPhysics.cs:176-185 | the step count rises by one; hover ends exactly when it had ended or the vehicle is calm after more than 100 steps, and it never resumes (see also line 134) |
| Physics.ControlInputs | Assets/Projects/designtool/Scripts/UAVPhysics.cs:189-203 | the pitch controller sees the forward pitch error exactly when hover is over, the roll controller the negated roll error, the yaw controller the yaw error; the pitch gains are doubled exactly when the throttle is above 100 (see also lines 48-58) |
| Physics.QuadrantBaseSigns | Assets/Projects/designtool/Scripts/UAVPhysics.cs:209-256 | each quadrant's command is the throttle plus its signed pitch and roll terms, and opposite quadrants take opposite terms |
| Physics.GroupForcesMembers | Assets/Projects/designtool/Scripts/UAVPhysics.cs:209-256 | a force loop gives exactly the motors of its group, each the group's command plus its yaw increment (see also lines 407-413) |
| Physics.QuadrantForcesMembers | Assets/Projects/designtool/Scripts/UAVPhysics.cs:209-256 | a quadrant's force loop commands exactly the motors of the quadrant, with its signed pitch, roll and yaw terms (see also lines 407-413) |
| Physics.ForcesMembers | Assets/Projects/designtool/Scripts/UAVPhysics.cs:206-256 | a tick commands exactly the motors that have a quadrant, each with its quadrant's command plus its yaw increment; a motor with no quadrant gets no command (see also lines 407-413) |
| Physics.Applied | Assets/Projects/designtool/Scripts/UAVPhysics.cs:332-335 | one applied force per command |
| Physics.SpentIsApplied | Assets/Projects/designtool/Scripts/UAVPhysics.cs:330-340 | each motor gets the smaller of its command and its maximum thrust, and the energy used is the total applied force over 500, never more than all motors at full thrust |
| Physics.RangeSign | Assets/Projects/designtool/Scripts/UAVPhysics.cs:419-432 | a hovering vehicle never reports a positive range; forward flight reports the distance travelled over 38 |
| Physics.RunawayTest | Assets/Projects/designtool/Scripts/UAVPhysics.cs:371-376 | the run-time guard fires exactly when abs(x) > 2000 or more than 40000 steps have run; z plays no part |
| Physics.EnergyStepFacts | Assets/Projects/designtool/Scripts/UAVPhysics.cs:327-360 | while energy remains the commands are applied and their energy added; otherwise the analysis ends with Success in forward flight and CouldNotStabilize while hovering, and nothing else changes |
| Physics.ChecksFacts | Assets/Projects/designtool/Scripts/UAVPhysics.cs:362-397 | the stand check sets the hit flag, the guard drains the energy, the height limit ends with CouldNotStabilize, and a hit ends with HitBoundary or CouldNotStabilize at the raw planar speed |
| Physics.TickEnds | Assets/Projects/designtool/Scripts/UAVPhysics.cs:171-398 | the analysis ends in a tick exactly when it had ended, the battery was spent, the vehicle rose above 1200 or it hit something; the hit flag is set at or below the stand |
| Physics.TickVerdict | Assets/Projects/designtool/Scripts/UAVPhysics.cs:327-397 | the verdict, range and velocity of a tick follow the last check that fires: hit, then height limit, then empty battery; otherwise they are unchanged |
| Physics.TickEnergy | Assets/Projects/designtool/Scripts/UAVPhysics.cs:327-376 | the guard drains the battery outright; otherwise the energy grows by the energy of the commands while energy remains and stays put after; only a tick with energy commands the motors |
| Physics.AutoPilot | Assets/Projects/designtool/Scripts/UAVPhysics.cs:454-462 | the throttle always lies in [0, 200] afterwards and only the throttle and its controller change |
| Physics.AutoPilotOpposesClimb | Assets/Projects/designtool/Scripts/UAVPhysics.cs:457-462 | from a controller with no memory, a rising vehicle never gets more throttle and a sinking one never gets less (see also line 63) |
| Physics.Collision.constructor | Assets/Projects/designtool/Scripts/UavCollision.cs:12 | the hit flag starts cleared |
| Physics.AddGroup | Assets/Projects/designtool/Scripts/UAVPhysics.cs:209-256 | one force loop appends the group's commands to the dictionary |
| Physics.UAVPhysics.constructor | Assets/Projects/designtool/Scripts/UAVPhysics.cs:125-147 | a new analysis has range -1, no steps, hover on, no energy used, not ended, and four distinct fresh controllers |
| Physics.UAVPhysics.GetDistance | Assets/Projects/designtool/Scripts/UAVPhysics.cs:419-432 | the range is set and returned, and nothing else changes |
| Physics.UAVPhysics.AssignForces | Assets/Projects/designtool/Scripts/UAVPhysics.cs:206-256 | the eight force loops build the tick's forces in quadrant order |
| Physics.UAVPhysics.CornerForces | Assets/Projects/designtool/Scripts/UAVPhysics.cs:209-232 | the FRONTRIGHT, FRONTLEFT, BACKRIGHT and BACKLEFT loops |
| Physics.UAVPhysics.SideForces | Assets/Projects/designtool/Scripts/UAVPhysics.cs:233-256 | the RIGHT, LEFT, FRONT and BACK loops |
| Physics.UAVPhysics.AddQuadrant | Assets/Projects/designtool/Scripts/UAVPhysics.cs:209-256 | one quadrant's loop over getMotors of that quadrant |
| Physics.UAVPhysics.UseEnergy | Assets/Projects/designtool/Scripts/UAVPhysics.cs:330-340 | the energy loop applies each capped command and adds its energy; nothing else changes |
| Physics.UAVPhysics.RunControllers | Assets/Projects/designtool/Scripts/UAVPhysics.cs:176-203 | the step count, hover flag and attitude controllers advance as one tick's control part says |
| Physics.UAVPhysics.AttitudeOutputs | Assets/Projects/designtool/Scripts/UAVPhysics.cs:189-203 | each attitude controller takes one step on its error with its gains |
| Physics.UAVPhysics.AddMotorAndFoilForce | Assets/Projects/designtool/Scripts/UAVPhysics.cs:171-398 | the new state, hit flag and applied forces are those of one tick |
| Physics.UAVPhysics.SpendOrStop | Assets/Projects/designtool/Scripts/UAVPhysics.cs:327-360 | the energy branch of the tick |
| Physics.UAVPhysics.FinalChecks | Assets/Projects/designtool/Scripts/UAVPhysics.cs:362-397 | the four checks after the energy branch, in order |
| Physics.UAVPhysics.StandAndGuard | Assets/Projects/designtool/Scripts/UAVPhysics.cs:362-376 | the stand check and the run-time guard |
| Physics.UAVPhysics.HeightAndHit | Assets/Projects/designtool/Scripts/UAVPhysics.cs:378-397 | the height limit and the hit check |
| Physics.UAVPhysics.AddAutoPilot | Assets/Projects/designtool/Scripts/UAVPhysics.cs:454-462 | the new state is the autopilot's throttle update of the old one |

## Left out

- Unity scene work is not modelled: Instantiate, Destroy and Find, the destroy loops in fromstring, FixedJoint creation, Rigidbody integration, and the torque of AddForceToPropeller. The physics step's forces are an output of the model.
- Floating-point values are reals, with no IEEE rounding. Grid positions are integers, because the tool places parts on a unit grid.
- addConnector compares positions within tolerances of 0.1 and 0.01. The model uses exact grid equality instead. Handle geometry becomes unit grid steps, and connector centres are counted in half-connector units.
- The 45-degree placement rotation and the centre of the bounds are inputs: `Part.offset` is the vector after rotation, and the centre is a parameter.
- FindGameObjectsWithTag is taken to return the parts in the order of the parts sequence.
- Dictionary enumeration is taken to follow insertion order, for jointGraph's keys (the joints are a sequence), motors' keys and forces' keys. .NET's Dictionary does not promise this order. The model captures it only for these add-only dictionaries.
- DesignTokens.Capacity: reads the second field as an unbounded integer. The (int) cast of UAVDesigner.cs:1056 has no defined result outside the 32-bit range, so `DesignTokens.CapacityOfDesign` is stated only for capacities below 2^31.
- double.Parse and float.Parse are not modelled in general. getCapacity is modelled on digit numerals and on the cases `ParseTruncates` states. makePrototype's parse of the capacity is a real input, and a parse failure there is not modelled.
- Square roots are not modelled. Comparisons use squared distances. The planar speed and the distance travelled are sensed inputs, with no constraint tying them to the positions.
- MotorData.distance is never read by the modelled code, so it is not modelled.
- The foil lift raycast (Assets/Projects/designtool/Scripts/UAVPhysics.cs:259-325) is not modelled, because it depends on scene raycasts.
- The camera placement in AddAutoPilot is not modelled, and neither is Sensors.getTransform: the Euler angles are an input. getTransform reads them from the first object tagged "protostructure", which need not be the main structure; the model takes them as given and does not tie them to the main structure.
- The try/catch around the MeshRenderer lookups in makePrototype is not modelled; it guards scene objects only.
- UI plumbing, setTextLabel and the trajectory sampling are not modelled.
- fromstring's component pass (changeJointToComponent), its sizing pass and its makePrototype call are not chained after the assembly replay. changeJointToComponent is scene work. sizeComponent is modelled separately as `Designer.UAVDesigner.SizeComponent`, which requires an existing joint; a null joint would make the source throw.
- The Failure verdict is never produced by the code, so it is not modelled.
- Energy is modelled as written: negative motor commands lower the energy used.
- The runaway guard is modelled as written, testing x only.
- Designer.IndexAt: states only that the result is the id of some joint at the position; `Designer.IndexAtUnique` gives the exact result when positions are unique.
- Designer.AddConnectorRecords: states the end id only for a newly created end joint; `Designer.AddConnectorCloses` covers the case where the end joint already exists.

## Findings

| source | as written | input that shows it | evidently intended | confidence | as-written member | corrected member |
|---|---|---|---|---|---|---|
| Assets/Projects/designtool/Scripts/UAVDesigner.cs:849 | node tokens are cut at the first `^` only, so the last node token keeps the `,capacity,controller` suffix when there are no edges | `*aMM0+,5,3`: its node token `aMM0+,5,3` decodes to size 5 instead of 1 | cut node tokens at the first `,` as the edge tokens are | not executed | `DesignTokens.NodeTokens`, `DesignTokens.NodeTokensAbsorbSuffix`, `Designer.FromStringSpec`, `Designer.FromStringSharedKey` | `DesignTokens.NodeTokensCut`, `DesignTokens.NodeTokensCutOfDesign`, `Designer.FromStringCutSpec`, `Designer.FromStringCutAgrees` |

The model of fromstring (`Designer.FromStringSpec`, `Designer.UAVDesigner.FromString`) follows the code as written. The corrected reading is `Designer.FromStringCutSpec`. `Designer.FromStringCutAgrees` proves that the two agree on every design with at least one edge, and `Designer.FromStringSharedKey` shows a design without edges on which they differ.
