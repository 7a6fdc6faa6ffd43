# Verified models of the engine's algorithms

This project models eight algorithms of the game server and client in Dafny and proves what they
are meant to guarantee. Each module follows one component of the program:

- **Crafting** (`src/craftdef.cpp`). `HopcroftKarp` is the bipartite matching with its arrays, its
  breadth-first layers and its recursive augmentation. `CraftItems`, `Pairings` and `Shapeless` are the
  recipes without a shape, with the sorted multiset filter in front of the matching. `Shaped` is the
  comparison of bounding boxes. `Recipes` and `CraftManager` are the five kinds of recipe, their hashes
  and the three-layer index with registration, removal and lookup.
- **Liquids** (`src/fm_liquid.cpp`). `Liquid` says what one look makes of the seven cells around a node:
  gravity, the levelling of lakes, sharing within a level, compression, gases, endless cells and the flooding
  of caves. `LiquidSteps` holds the loops that compute it, `LiquidLaws` what follows from it: what is made, what
  is left over, how it settles. `LiquidMap` is the map around it: looking at a queued node, exchanging
  liquids by weight, writing levels back, whole runs of the queue and their ledger. `LiquidRules` and
  `LiquidMapRules` say the same once more place by place and number by number: lakes, flooding, losses,
  where a gas goes, what a look sees, which of two liquids sinks, what is written.
- **The far mesh** (`src/fm_far_calc.cpp`). `FarOctree` is the tree of cells around a player, its point
  query and its enumeration with a callback that may stop it. `FarTree` places the tree and states what
  holds of the whole grid.
- **Plural formulas** (`src/gettext_plural_form.cpp`). `PluralForm` is the recursive-descent parser; the
  functions it builds are represented by their construction and given a meaning by `Eval`. `PluralText` describes
  the texts it accepts: the formulas of section 11.2.6 of the GNU gettext manual, and what it takes besides.
- **Chat** (`src/chat.cpp`). `ChatFormat` breaks a message into the lines of a console, `ChatBuffer` keeps
  the lines of many messages up to date while messages come and go and the console changes its size.
- **The block pyramid** (`src/fm_world_merge.cpp`). `WorldMerge` rebuilds the coarser levels of the map from
  a list of changed blocks. How eight blocks become one is a parameter.
- **Paths** (`src/filesys.cpp`). `Paths` is the prefix test and the removal of `.` and `..`, for any
  delimiter and any folding of case.
- **The emerge queue** (`src/emerge.cpp`). `Emerge` is the queue shared by the worker threads. Each method is
  one critical section, so that any sequence of calls is an interleaving.

`Arithmetic` holds facts about products that the solver needs, `Wrappers` the optional value, `Blocks` and
`Characters` what two of the components share.

Loops and updates in place are methods over arrays and fields, proved against functions or against the
property itself; expressions and recursion are functions. What a reader of the program might not expect:

- `CraftDefinitionShaped::check` decides "some translation of the recipe on the plane matches the input" only for
  recipes whose outer rows and columns have a slot that refuses the empty item (`Shaped.ShapeIsExact`).
- The hashed layers find every recipe that matches only while no slot matches the empty item
  (`Recipes.HashingIsComplete`).
- The constructor of the fuel recipe looks at its resolved name, which is still empty there, so a fuel
  recipe never has the lower priority of a group. Once recipes are hashed this changes nothing for a fuel recipe
  of the item itself (`CraftManager.PlainFuelWins`); before, a group registered later wins
  (`CraftManager.LatestFuelWins`).
- Clearing recipes by output takes them out of the unhashed layer only; recipes that are hashed already stay
  in their buckets (`CraftManager.CraftDefManager.ClearCraftsByOutput`).
- A query for an aligned position finds the cell that the enumeration reports for every player only if cells
  are single blocks or the tree is at least four cells wide (`FarTree.QueriesAgree`). The query does not
  enlarge the tree to one mesh cell as the enumeration does; in a smaller tree it never agrees, and block by block it
  divides by 0 (`FarTree.RangeQueriesAgree`, `FarTree.SmallTreeBlockQuery`).
- A node from which a heavier liquid sinks is not queued again, the node below is queued twice
  (`LiquidMap.SunkNotWoken`, `LiquidMap.LiquidMap.Look`). Nor is what a gas under pressure changes when so
  much of it finds no room that all cells are full, unless a cell stands beside one on stairs
  (`LiquidMap.GasSideNotWoken` is an input, `LiquidMap.Returns` the condition). Everything else that a look changes is
  queued (`LiquidMap.LookWakesExactly`).
- Under pressure a liquid under a closed cell loses units although single cells could still take one more
  (`LiquidLaws.LiquidLossBound` says when).
- The formula parser accepts a missing operand as 0 and numbers with a sign (`PluralText.NothingInParentheses`,
  `PluralText.NumberWithSign`). It also accepts choices of which a branch is missing or not closed
  (`PluralText.MissingAlternative`, `PluralText.MissingValue`); evaluating them fails where that branch is taken
  (`PluralText.AcceptedMeans`).
- On a console of one or two columns a message with a name has no lines at all, and deleting it takes the
  lines of another one (`ChatBuffer.ChatBuffer.DeleteOldest`). Clearing the buffer while a console is open leaves the
  scroll position out of range (`ChatBuffer.ChatBuffer.Clear`). When only the height of the console changes, it
  scrolls to the first line unless it was at the bottom (`ChatBuffer.ChatBuffer.Reformat`).
- A full load of the pyramid leaves blocks over vanished ground stored. A forced one, which visits the parents of
  what is stored on every level, also leaves blocks that have no child in the full rebuild, even over ground
  (`WorldMerge.FullLoadExact`, `WorldMerge.ForcedLoadLeavesStale`).

## Model

| member | source | states |
|---|---|---|
| HopcroftKarp.CanMatchAllNodes | src/craftdef.cpp:494-592 | terminates for every graph of at most 30000 nodes with neighbours in range; true exactly when every left node can be given a neighbour of its own; when false some set of nodes has fewer neighbours than members |
| HopcroftKarp.Bfs | src/craftdef.cpp:511-542 | the distances are layers of the alternating graph from the unmatched nodes; when the dummy is not reached the layers are closed under alternating steps |
| HopcroftKarp.Dfs | src/craftdef.cpp:547-568 | success turns an alternating path into one more matched root and keeps the pairing mutual; failure changes no pair and gives the node up only because it leads nowhere in these layers |
| HopcroftKarp.MatchRoots | src/craftdef.cpp:574-588 | a phase whose search reached the dummy matches at least one more node |
| HopcroftKarp.LiveRoot | src/craftdef.cpp:547-588 | as long as the dummy is still alive in the layers, some unmatched root is too, so a phase cannot fail altogether |
| HopcroftKarp.ClosedGivesViolator | src/craftdef.cpp:511-542 | the nodes of closed layers with an unmatched root have too few neighbours |
| HopcroftKarp.HallViolatorBlocks | src/craftdef.cpp:487-494 | a set of nodes with too few neighbours excludes a perfect matching |
| CraftItems.DifferenceOfSorted | src/craftdef.cpp:626-640 | the merging difference of two sorted lists is the difference of multisets |
| CraftItems.SortedIsUnique | src/craftdef.cpp:626-640 | two sorted lists with the same members are the same list |
| CraftItems.GroupSlotTakes | src/craftdef.cpp:69-93 | a slot that asks for groups takes a registered item exactly if every group named between its commas has a rating other than 0 for the item, and any item of the slot's own name |
| CraftItems.PlainSlotTakes | src/craftdef.cpp:73-75 | any other slot takes exactly the item of its name |
| CraftItems.IsCommaList | src/craftdef.cpp:79-88 | every list behind "group:" is one of names without commas, the empty name among them, so that the first of these covers all group slots |
| Pairings.CouplesGivePairing | src/craftdef.cpp:594-669 | a list of couples with the inputs on one side and the slots on the other, in any order, is a one-to-one assignment of inputs to slots |
| Pairings.PairsUpGivesCouples | src/craftdef.cpp:594-669 | and each such assignment gives such a list |
| Shapeless.PrefilterIsExact | src/craftdef.cpp:617-652 | inputs can be assigned to all slots exactly if the plain slots are all among them and the others can be assigned to the group slots; then as many inputs as group slots remain, which the program asserts |
| Shapeless.GraphDecidesPairing | src/craftdef.cpp:654-668 | the graph of admissible pairs has a perfect matching exactly when the inputs can be assigned |
| Shapeless.Check | src/craftdef.cpp:594-669 | true exactly for normal crafting whose non-empty names can be assigned one-to-one to the slots they match, with at most 30000 group slots |
| Shaped.GetBounds | src/craftdef.cpp:143-174 | finds an item exactly if there is one, and then the smallest rectangle that holds all |
| Shaped.Pad | src/craftdef.cpp:360-364 | filling up the last row changes no cell and no item |
| Shaped.Compare | src/craftdef.cpp:393-414 | true exactly if the rectangles are equally large and match cell by cell |
| Shaped.Check | src/craftdef.cpp:351-415 | decides the comparison of the two bounding rectangles, whatever the widths and the unfilled rows |
| Shaped.BoxIsUnique | src/craftdef.cpp:143-174 | a grid has only one bounding rectangle |
| Shaped.SameShapeIsArranged | src/craftdef.cpp:351-415 | an accepted input matches a translation of the recipe over the whole plane |
| Shaped.ArrangedIsSameShape | src/craftdef.cpp:351-415 | an input that matches a translation is accepted if the sides of the recipe are rigid |
| Shaped.ShapeIsExact | src/craftdef.cpp:351-415 | the check agrees with translations on the plane for all inputs exactly if every side of the recipe's rectangle has a slot that refuses the empty item |
| Shaped.AcceptedItems | src/craftdef.cpp:433-455 | the items of an accepted input, read row by row, match the filled slots of the recipe in the same order |
| Recipes.Check | src/craftdef.cpp:351-415 | each kind of recipe accepts exactly what its definition says (shaped 351-415, shapeless 594-669, repair 761-789, cooking 840-866, fuel 943-969) |
| Recipes.RankByKind | src/craftdef.h:119-133 | of two recipes for one input, which ranks higher: one with a shape before one without, before the repair of tools, and among equals one without groups before one with groups, but for fuel |
| Recipes.RepairNeedsTwo | src/craftdef.cpp:761-780 | nothing is repaired of more or fewer than two stacks |
| Recipes.RepairAdds | src/craftdef.cpp:728-756 | when two tools are repaired, and how many uses the one made of them has: those left in both, less the cost, at most those of a new one |
| Recipes.JoinIsUnique | src/craftdef.cpp:40-52 | lists of names without line breaks that differ are hashed as different strings |
| Recipes.AcceptedIsFoundByHash | src/craftdef.cpp:40-65 | an accepted input has the hash under which the recipe is filed, for every string hash, if empty stacks have no name and no slot matches the empty item |
| Recipes.SoftSlotIsMissed | src/craftdef.cpp:433-455 | for each slot that matches the empty item there is a recipe that accepts an input which hashes elsewhere |
| Recipes.HashingIsComplete | src/craftdef.cpp:40-65 | hashing misses no accepted input exactly if no slot matches the empty item |
| CraftManager.CraftDefManager.RegisterCraft | src/craftdef.cpp:1199-1209 | appends one definition to the unhashed layer and to the list of its output, and changes no other |
| CraftManager.CraftDefManager.ClearCraftsByOutput | src/craftdef.cpp:1130-1145 | removes exactly the definitions with this output from the index and from the unhashed layer, and keeps the others in their order; the index and the layers still fit together exactly if none of them is hashed |
| CraftManager.CraftDefManager.ClearCraftsByInput | src/craftdef.cpp:1147-1179 | removes exactly the definitions of the unhashed layer that accept the input, which before hashing are all that do, keeps the others in their order, and tells whether there were any |
| CraftManager.CraftDefManager.InitHashes | src/craftdef.cpp:1223-1238 | files every definition under its own hash, behind those that are there already and in the order in which they were registered, and loses none |
| CraftManager.CraftDefManager.GetCraftResult | src/craftdef.cpp:1041-1103 | finds a recipe exactly if some registered one accepts the input and has a known output, and then one of the highest priority |
| CraftManager.LookupRefinesScan | src/craftdef.cpp:1041-1103 | looking through the buckets of the three layers gives what looking through all definitions would give |
| CraftManager.BestByKind | src/craftdef.cpp:1057-1096 | the recipe found is one for which no other that applies is of a better kind |
| CraftManager.PlainFuelWins | src/craftdef.cpp:925-936 | once recipes are hashed, an item that has a fuel recipe of its own never burns by the recipe of a group |
| CraftManager.LatestFuelWins | src/craftdef.cpp:1057-1096 | before that, of the fuel recipes that apply the one registered last wins, and only that, whether its slot is a group or not |
| FarOctree.MeshCellsPartition | src/fm_far_calc.cpp:224-258 | the whole cells of a tree cover each position of the start cube once and no other position |
| FarOctree.EmittedPartition | src/fm_far_calc.cpp:427-450 | so do the single blocks that a whole cell is taken apart into |
| FarOctree.CellsPartition | src/fm_far_calc.cpp:427-465 | so do all cells that the enumeration reports |
| FarTree.GridSteps | src/fm_far_calc.cpp:427-450 | every reported cell is named by its corner, and its step gives its side: 2^step blocks for a block taken out of a cell, 2^step cells of the finest size for a whole one |
| FarOctree.FindAgreesWithCells | src/fm_far_calc.cpp:260-310 | the point query succeeds exactly inside the start cube and gives the one reported cell that holds the position |
| FarOctree.Visitor.EmitTreeCell | src/fm_far_calc.cpp:427-450 | calls the function for the blocks of the cell in order until it asks to stop |
| FarOctree.Visitor.Each | src/fm_far_calc.cpp:452-465 | calls the function for all reported cells in order until it asks to stop |
| FarOctree.VisitAll | src/fm_far_calc.cpp:452-465 | a function that never stops is called for all of them |
| FarTree.RunFarAll | src/fm_far_calc.cpp:467-496 | reports the cells of the tree around the player, which is at least as large as one mesh cell |
| FarTree.TreeSides | src/fm_far_calc.cpp:339-342 | the cube of a range of 4 or more has a side of more than a quarter and at most half of it, and of 2^16 from 2^18 on; the enumeration takes at least a mesh cell |
| FarTree.StartIsCentered | src/fm_far_calc.cpp:344-358 | the cube starts a quarter of its side below the last multiple of half its side before the player, on every axis; a flat one at the given height |
| FarTree.QueriesAgree | src/fm_far_calc.cpp:192-200 | in the tree of the enumeration a block is the corner of a reported cell of a step exactly if the query says so: always when cells are taken apart, otherwise for all players exactly if a cell is one block or the tree at least four cells wide |
| FarTree.RangeQueriesAgree | src/fm_far_calc.cpp:360-376 | the query in the tree of the range, as the program makes it, agrees with the enumeration for all players: block by block exactly if that tree is no smaller than a mesh cell, cell by cell exactly if a cell is one block or the tree at least four cells wide |
| FarTree.SmallTreeBlockQuery | src/fm_far_calc.cpp:273-294 | in a tree smaller than a mesh cell a query for a block divides by 0 exactly for the blocks of the tree, among them the one of the player |
| FarTree.SmallTreeCellQuery | src/fm_far_calc.cpp:262-271 | and a query for a mesh cell never gives the step 0, which is the step of all that the enumeration then reports |
| FarTree.OffsideDisagrees | src/fm_far_calc.cpp:360-376 | a player for whom the aligned query fails in a smaller tree |
| FarTree.GridIsBalanced | src/fm_far_calc.cpp:224-258 | cells that touch, even at a corner, differ in side by at most a factor of two |
| FarTree.NearBlocksInTree | src/fm_far_calc.cpp:344-358 | every block closer than a quarter of the side of the tree lies in it |
| FarTree.PlayerCellIsFinest | src/fm_far_calc.cpp:224-240 | the mesh cell that holds the player has the smallest size, and what it contributes, itself or its blocks, has size 1 and step 0 |
| FarTree.NearRangeCovers | src/fm_far_calc.cpp:70-91 | every node of every cell or block of step 0 that the enumeration reports is closer to the camera than the near range, wherever the camera is in its block, as long as the tree has a side below 2^60 |
| FarTree.NearRangeIsSharp | src/fm_far_calc.cpp:70-91 | a cell of twice the finest side is split exactly while its centre is nearer than the near range less half its side |
| FarTree.NearRangeIs | src/fm_far_calc.cpp:70-91 | the near range as a number, for every setting; the greatest one where it does not fit |
| Liquid.RowFacts | src/fm_liquid.cpp:82-84 | each of the four orders starts below, ends above and visits every cell exactly once |
| LiquidSteps.Apportion | src/fm_liquid.cpp:637-736 | the loops compute the target of the cell below, the share of the level, the rest, what a lake gains or loses and the unit lost above unloaded blocks, as the definition gives them |
| LiquidLaws.LowParts | src/fm_liquid.cpp:637-736 | up to the normal level the cell below gets all there is up to that level; below, level and rest add up to the old volume corrected by the lake and by the lost unit; a share below the normal level leaves less than one unit per cell |
| LiquidSteps.FillSameLevel | src/fm_liquid.cpp:738-758 | gives each cell of the level its share; of those that may have a unit more the first in the order get one while something is left, and no other cell changes |
| LiquidSteps.SpreadRest | src/fm_liquid.cpp:760-769 | the first cells of the level below their normal level get one unit each while something is left, so that something is left only when every cell has more than its share |
| LiquidSteps.Compress | src/fm_liquid.cpp:795-807 | under pressure the first cells below their compressed capacity, in an order that starts below and ends above, get one unit each |
| LiquidSteps.Sink | src/fm_liquid.cpp:823-867 | which unit sinks under pressure and when none does |
| LiquidSteps.SettleLiquid | src/fm_liquid.cpp:637-871 | the phases together compute the targets and the rest of the definition, every target within its bounds, under pressure too |
| LiquidLaws.SettlesWithoutPressure | src/fm_liquid.cpp:637-807 | without pressure nothing is left, the cell below is filled first, then the level to within two units of evenness, and only the rest rises |
| LiquidSteps.GasDirections | src/fm_liquid.cpp:542-583 | the directions a gas can enter, each once, in the order of its preference |
| LiquidLaws.PreferenceMembers | src/fm_liquid.cpp:558-583 | a gas without a layer of its own goes everywhere; any other goes to the sides, and up or down only towards its layer |
| LiquidLaws.ListedOrder | src/fm_liquid.cpp:549-556 | of two listed directions the one listed first is preferred |
| LiquidSteps.RoundRobin | src/fm_liquid.cpp:597-633 | serving directions in turn from one level leaves each with as much as those after it or one unit more, leaves something only if all of them are full, and touches no other cell |
| LiquidSteps.SpreadGas | src/fm_liquid.cpp:542-636 | the cells take all of a gas up to their normal levels; the preferred directions end up even, the first ones first, and the others hold gas only when those are full |
| LiquidLaws.GasUnique | src/fm_liquid.cpp:542-636 | these conditions leave one distribution only |
| LiquidSteps.Finish | src/fm_liquid.cpp:878-938 | what is left fills the cell above and then the node itself up to their capacity, and endless cells and flooded caves are filled after that |
| LiquidSteps.Replenish | src/fm_liquid.cpp:913-938 | endless cells lose nothing, caves below the water level are filled, other cells stay, and what appears is counted |
| LiquidSteps.Distribute7 | src/fm_liquid.cpp:498-938 | one look computes the targets and the account of the definition: what is made or dries up, what is left over, what is lost above unloaded blocks |
| LiquidLaws.OneOutcome | src/fm_liquid.cpp:498-938 | what is seen, the settings and the counters leave one outcome only, targets and account |
| LiquidLaws.LookConserves | src/fm_liquid.cpp:498-938 | all targets lie between 0 and the capacity; their sum is the old volume plus what is made, minus what is left and lost; endless cells lose nothing |
| LiquidLaws.LookAccounted | src/fm_liquid.cpp:498-938 | what is left is the closed form of what finds no room; what is made is the gain of a lake, at its surface near the water level, plus what endless cells are short of and flooded caves take in; units dry up only in films above lakes |
| LiquidLaws.LiquidLeftOver | src/fm_liquid.cpp:637-911 | a liquid loses nothing if the cell above is open or the average is below the normal level; otherwise, of the units above the average, those that do not fit into the node, less one if one unit sinks |
| LiquidLaws.LiquidLossBound | src/fm_liquid.cpp:771-911 | exactly when a liquid loses something, and then less than one unit per cell |
| LiquidLaws.GasLeftOver | src/fm_liquid.cpp:542-911 | a gas loses exactly what exceeds all cells at their normal level with the node and the cell above at their capacity |
| LiquidLaws.LookSettles | src/fm_liquid.cpp:498-911 | without pressure, where nothing is made but what a lake gains or loses, liquids and gases have settled, whatever the settings; with lakes and flooding switched off and nothing endless nothing is made |
| LiquidRules.LakeExactly | src/fm_liquid.cpp:671-735 | exactly when a lake gains or loses units, and how many |
| LiquidRules.SuppliedExactly | src/fm_liquid.cpp:913-938 | exactly which cells are filled up afterwards, and how far |
| LiquidRules.LostBelow | src/fm_liquid.cpp:695-705 | exactly when and how much is lost above blocks that are not loaded |
| LiquidRules.GasGoes | src/fm_liquid.cpp:542-633 | where a gas goes first: towards its layer, with the wind, up, along in turn, down; the cell that comes first has as much as the other or one unit more |
| LiquidRules.GasFallsBack | src/fm_liquid.cpp:596-633 | a gas with a layer goes away from it only when all else is full, and at its layer up and down in turn |
| LiquidRules.Capacity | src/fm_liquid.cpp:498-508 | what each cell may hold, under pressure and without |
| LiquidRules.SidesTakeTurns | src/fm_liquid.cpp:82-84 | the four orders in which cells are served, in full |
| LiquidMap.VolumeAround | src/fm_liquid.cpp:279-486 | the volume in the map is the volume in the first cells around a node plus the rest |
| LiquidMap.LiquidMap.Collect | src/fm_liquid.cpp:276-486 | finds the kind of the first liquid met, shows each cell as that liquid sees it and sums their levels, or reports the exchange by weight |
| LiquidMapRules.LookSees | src/fm_liquid.cpp:276-486 | what a look sees at the seven places: the first liquid, which cells it may enter and how much of it is there; without an exchange it flows exactly if it can enter the node and there is some of it |
| LiquidMapRules.HeavierSinks | src/fm_liquid.cpp:401-456 | a look exchanges two nodes exactly if the upper one of a pair is the heavier of two liquids with weight; afterwards the heavier one is below, and no other node has changed |
| LiquidMap.LiquidMap.WriteBack | src/fm_liquid.cpp:961-1036 | each cell gets its target once whatever the order, a level of 0 leaves air, other nodes stay; queued are exactly the cells that change, unless too much is left over, and the sides of changed cells on stairs |
| LiquidMapRules.FlowWrites | src/fm_liquid.cpp:961-1036 | what the map holds after a look, place by place: the liquid at its target, air where the target is 0, everything else as before |
| LiquidMap.AnyOrderWakes | src/fm_liquid.cpp:961-1036 | the order in which the cells are written does not change which nodes are queued |
| LiquidMap.SpreadLedger | src/fm_liquid.cpp:961-1036 | writing targets changes the volume of the liquid by the difference of the sums and of no other liquid |
| LiquidMap.LiquidMap.Look | src/fm_liquid.cpp:240-1060 | one look exchanges two nodes, redistributes one liquid or does nothing, as the nodes around demand; nodes stay valid; which nodes are queued for the next run |
| LiquidMap.LookLedger | src/fm_liquid.cpp:498-1036 | one look changes the volume of every kind by exactly what it reports as made, left over and lost, and reports only what its account may say; exchanges change none |
| LiquidMap.RunLedger | src/fm_liquid.cpp:240-1060 | so does a whole run over any queue |
| LiquidMap.LookIsDetermined | src/fm_liquid.cpp:240-1060 | the map, the node and the counters determine what a look does and reports |
| LiquidMap.RunIsDetermined | src/fm_liquid.cpp:240-1129 | and the map, the queue and the counters what a run does |
| LiquidMap.CalmRunConserves | src/fm_liquid.cpp:498-938 | with lakes and flooding switched off and no endless nodes, a run over nodes at or below the water level loses of every volume exactly what found no room, which is nothing without pressure |
| LiquidMap.LiquidMap.Run | src/fm_liquid.cpp:224-1129 | looks at every queued node once; the new queue holds each node once and exactly the nodes that the looks ask for |
| LiquidMap.RunWakesChanged | src/fm_liquid.cpp:961-1112 | every node that a look of the run changed is in the next queue, if before that look no liquid was to sink there and what flows was to return |
| LiquidMap.LookWakesExactly | src/fm_liquid.cpp:240-1060 | for every kind, under pressure or not: all nodes that a look changes are queued exactly if the node does not exchange with a lighter one below and, when so much is left over that cells are not queued themselves, each cell that changes is beside one on stairs; the condition is read off the map before the look |
| LiquidLaws.GasBrimful | src/fm_liquid.cpp:542-938 | where a gas leaves something over, its targets: the node and the cell above at their capacity, the others at their normal level, endless cells as they were |
| LiquidMap.LiquidReturns | src/fm_liquid.cpp:1032-1035 | a liquid, and a gas without pressure, never leaves so much over |
| LiquidMap.ThickGasReturns | src/fm_liquid.cpp:992-1035 | a gas of three levels or more that does returns exactly if it changes nothing |
| LiquidMap.GasSideNotWoken | src/fm_liquid.cpp:1032-1035 | two full cells of a gas under pressure, closed in: one loses 23 of its 31 units and is not queued |
| LiquidMap.SunkNotWoken | src/fm_liquid.cpp:405-430 | such an exchange queues only the node below |
| PluralForm.ParseLtr | src/gettext_plural_form.cpp:66-81 | the loop over the operators of a level gives what the recursive definition gives |
| PluralForm.EvalIsC | src/gettext_plural_form.cpp:16-31 | every operator gives what C gives for unsigned 64-bit numbers: sums and products up to multiples of 2^64, quotient and remainder as dividing is defined, 0 for a divisor of 0, comparisons as 0 or 1 |
| PluralText.DenotedMeans | src/gettext_plural_form.cpp:16-31 | the function built for a text computes its value by the rules of C for unsigned numbers, with division by 0 giving 0; it fails exactly where evaluation comes to a broken branch |
| PluralText.MeaningIsC | src/gettext_plural_form.cpp:16-31 | so is the meaning of a text with an operator, of a negation and of a choice |
| PluralText.SymbolsOfC | src/gettext_plural_form.cpp:138-166 | each of the thirteen operators is written as in C: "n", the symbol and a number are accepted and give that operator's value |
| PluralText.NumbersRead | src/gettext_plural_form.cpp:90-93 | which number every sequence of digits is, with a sign or without, too large ones included |
| PluralText.BlanksAreTrimmed | src/gettext_plural_form.cpp:168-194 | exactly the six blanks of ASCII may stand around a formula |
| PluralText.Parses | src/gettext_plural_form.cpp:83-186 | every text that stands as it is written is consumed up to where it ends and gives the function it denotes, or none if it is broken, at every level of precedence |
| PluralText.ChainParses | src/gettext_plural_form.cpp:38-81 | operators of one level associate to the left |
| PluralText.FormulaIsParsed | src/gettext_plural_form.cpp:168-194 | every formula, with any blanks and parentheses, is accepted whole and evaluates to its meaning for every number |
| PluralText.PrintedIsParsed | src/gettext_plural_form.cpp:136-194 | printing a function with only the necessary parentheses and parsing it gives the function back |
| PluralText.AcceptedIsText | src/gettext_plural_form.cpp:83-194 | every accepted text is, up to blanks, such a text, whole and not itself broken, and gives the function it denotes |
| PluralText.TextIsAccepted | src/gettext_plural_form.cpp:83-194 | and every such text is accepted |
| PluralText.AcceptedExactly | src/gettext_plural_form.cpp:83-194 | so that these are exactly the accepted texts |
| PluralText.AcceptedMeans | src/gettext_plural_form.cpp:16-194 | the function of an accepted text fails for a number exactly if evaluation comes to a missing or unclosed branch, and computes the meaning of the text otherwise |
| PluralText.FormulaIsWhole | src/gettext_plural_form.cpp:168-181 | a formula has no broken part and never fails |
| PluralText.FormulaIsComplete | src/gettext_plural_form.cpp:168-181 | the function of a formula can always be printed |
| PluralText.NothingInParentheses | src/gettext_plural_form.cpp:83-107 | "()" is accepted as 0 |
| PluralText.NumberWithSign | src/gettext_plural_form.cpp:83-95 | "-1" is accepted and wraps around |
| PluralText.MissingValue | src/gettext_plural_form.cpp:97-181 | "n?(n:n" is accepted without its value |
| PluralText.MissingAlternative | src/gettext_plural_form.cpp:97-181 | "n?n:", "n?n:(n" and "n?n:n?n" are accepted without their alternative |
| PluralText.MissingBranchFails | src/gettext_plural_form.cpp:16-31 | and there are numbers for which such functions fail |
| ChatFormat.FormatChatLine | src/chat.cpp:216-413 | the loops append the lines that the definition gives and count them |
| ChatFormat.FormatKeepsText | src/chat.cpp:216-413 | the fragments of all lines make up the name and the text exactly; there are no lines exactly if the indentation takes all columns |
| ChatFormat.FormatShowsLinks | src/chat.cpp:216-413 | every character shown carries the link that it is in, and no other, wherever lines are broken |
| ChatFormat.NextLinkIs | src/chat.cpp:326-333 | which link comes next: the first secure one, or the first of the others if no secure one follows |
| ChatFormat.LinkIs | src/chat.cpp:347-371 | where a link ends: before the next blank, quote or semicolon, without a comma or full stop there |
| ChatFormat.FormatIsWellLaid | src/chat.cpp:216-413 | there is a line; only the first is marked; the others begin at the hanging indentation; fragments join up; no line is too long, and none is blank unless there is nothing to show |
| ChatFormat.LinesBegin | src/chat.cpp:247-256 | where every line but the first begins: at the left for a message without a name, behind the shown name if that takes at most half of the columns, otherwise in column 2 |
| ChatFormat.TextBehindName | src/chat.cpp:226-250 | that is the column where the text itself begins on the first line |
| ChatFormat.PieceBreaksAtBlank | src/chat.cpp:310-400 | where a piece ends when no link begins in the room: with the text if it fits, otherwise behind the last blank that fits, or with the room if there is none |
| ChatFormat.PieceKinds | src/chat.cpp:326-400 | a link is a piece of its own, after which the line ends if it takes the room; a piece before one ends where it begins |
| ChatBuffer.ChatBuffer.DeleteOldest | src/chat.cpp:82-114 | the oldest messages go, and the lines of as many messages with room; the console stays at the bottom or goes on showing the same lines as far as they are left; the line at which a message is deleted is always the first of one; the lines are those of the remaining messages exactly if every deleted message had room or no remaining one has; always with three columns or more |
| ChatBuffer.ChatBuffer.AddLine | src/chat.cpp:35-54 | appends the message and its lines, keeps the limit by deleting the oldest, stays at the bottom if it was there and at the same lines if not |
| ChatBuffer.ChatBuffer.Resize | src/chat.cpp:438-443 | keeps the newest messages up to the new limit and deletes the others with their lines |
| ChatBuffer.ChatBuffer.Reformat | src/chat.cpp:129-182 | the lines are those of all messages at the new width; the scroll position stays at the bottom or goes where the old one is restored, within range; without a change of size it stays |
| ChatBuffer.ScreenShows | src/chat.cpp:415-436 | a scroll position is allowed exactly if no more rows than needed stay blank, and those at the top; the last one shows the last line in the bottom row |
| ChatBuffer.TopMessageStays | src/chat.cpp:146-180 | a console that shows the beginning of a message in its top row shows it there after its width has changed |
| ChatBuffer.ChatBuffer.Clear | src/chat.cpp:56-62 | removes everything; the scroll position is in range afterwards exactly while there is no console |
| ChatBuffer.DeletionSync | src/chat.cpp:89-108 | the condition under which messages and lines stay in step, for any number deleted |
| WorldMerge.WorldMerger.MergeOneBlock | src/fm_world_merge.cpp:134-410 | reads the eight children and stores or deletes their parent, nothing else |
| WorldMerge.WorldMerger.MergeOneStep | src/fm_world_merge.cpp:412-526 | makes the parents of the listed blocks anew, each exactly once, in any order |
| WorldMerge.WorldMerger.MergeList | src/fm_world_merge.cpp:528-537 | goes through all levels from the ground up |
| WorldMerge.ChangesRestored | src/fm_world_merge.cpp:463-537 | if every stored parent was what its children make, and ground blocks then change only within the list, the same holds at every level afterwards |
| WorldMerge.RunRestores | src/fm_world_merge.cpp:463-537 | and each level differs from before only where it was listed |
| WorldMerge.RightIsPyramid | src/fm_world_merge.cpp:421-537 | a pyramid in which every block is what its children make is the full rebuild from its ground |
| WorldMerge.IncrementalIsFull | src/fm_world_merge.cpp:463-537 | rebuilding over the changed blocks only gives what a full rebuild would give, at every level |
| WorldMerge.FullLoadExact | src/fm_world_merge.cpp:421-543 | a full load over any stored pyramid gives a right one: unless it is forced, exactly if every stored block lies over a ground block; forced, exactly if every stored block has a child in the full rebuild from the ground |
| WorldMerge.ForcedLoadExact | src/fm_world_merge.cpp:421-521 | forced with any list over any stored pyramid: exactly if on the first level all that is not visited was right and every block above it has a child in the full rebuild |
| WorldMerge.ForcedAfterChanges | src/fm_world_merge.cpp:463-521 | after listed changes of a right pyramid only the second of these can fail |
| WorldMerge.ForcedLoadLeavesStale | src/fm_world_merge.cpp:421-543 | a ground block that makes nothing and a block two levels above it: nothing listed, no orphan, and the upper block stays |
| Paths.PathStartsWith | src/filesys.cpp:671-730 | terminates; true exactly if both begin at a delimiter or both do not and the names of the prefix begin the names of the path, however many delimiters stand between them; for an empty prefix, if the path is empty |
| Paths.PathNames | src/filesys.cpp:689-706 | a path is cut into its names at slashes and at delimiters of the system and nowhere else |
| Paths.CompareNames | src/filesys.cpp:703-727 | comparing two names character by character decides whether they agree up to case |
| Paths.RemoveRelativePathComponents | src/filesys.cpp:770-821 | the names of the result are those that a stack leaves, or the result is empty if a ".." has nothing to take away; it is empty exactly if that fails or nothing is left, as of "/a/.."; otherwise an absolute path gives an absolute result and a relative one a relative result; no delimiter at the end; a path with nothing to remove is unchanged |
| Paths.FromRightIsStacked | src/filesys.cpp:770-821 | counting ".." from right to left removes what the stack removes from left to right |
| Paths.StackedDepth | src/filesys.cpp:813-814 | the stack fails exactly if some beginning of the path has more ".." than names |
| Paths.StackRules | src/filesys.cpp:787-796 | four rules that make up the stack: "." goes, ".." goes with a name before it, ".." at the beginning fails, other names stay |
| Paths.NormalizedIsStable | src/filesys.cpp:770-821 | a result has no "." and ".." left and is a result of itself, so that a second application changes nothing |
| Emerge.EmergeManager.EnqueueBlockEmerge | src/emerge.cpp:315-342 | accepts exactly within the limits; a new block goes to one of the shortest queues; a waiting one stays and gathers the request; a refused request changes nothing; without forced requests the blocks never exceed the total limit |
| Emerge.EmergeManager.PushBlockEmergeData | src/emerge.cpp:402-446 | refuses exactly as the limits say, and keeps the count of each peer equal to the blocks charged to it |
| Emerge.EmergeManager.PopBlockEmerge | src/emerge.cpp:564-577 | the first block of the queue always has its data, which hold all callbacks in order and the union of all flags accepted since it was queued, and go with it |
| Emerge.AnyRequest | src/emerge.cpp:430-439 | a flag is set if any request has set it, and the callbacks are those given |
| Emerge.EmergeManager.CancelPendingItems | src/emerge.cpp:529-544 | every block of the thread's queue is taken out once with the callbacks accepted for it; other blocks stay |
| Emerge.EmergeManager.GetOptimalThread | src/emerge.cpp:472-490 | the first thread with the shortest queue |
| Emerge.EmergeManager.constructor | src/emerge.cpp:108-119 | the limits of a peer are the nearest in range, the total limit is the largest of the three |
| Emerge.ChargeGone | src/emerge.cpp:449-469 | the count of the peer is positive and exact after a block is taken out |
| Emerge.QueuePopped | src/emerge.cpp:564-577 | each waiting block stays in exactly one queue exactly once |

## Left out

- CraftItems: item strings are resolved to names by the caller, wear and counts are numbers, and aliases, replacements and the outputs' counts are not modelled.
- Recipes.Check: the reading of tool wear uses whole numbers as the program does, without the floating-point `additional_wear`, which is a parameter in units of wear.
- CraftManager.CraftDefManager.GetCraftResult: decrementing the input and the loaned output stacks are not part of this model.
- CraftManager.CraftDefManager.ClearCraftsByOutput: a definition that is deleted while hashed stays in its bucket; what a lookup does with it is not modelled.
- FarTree.NearRangeCovers: leaves out a tree of one block (ranges 2 and 3 with mesh cells of one block), for which the program shifts by 255; the build with 16-bit positions, whose trees end at 2^12, is not modelled.
- FarOctree: positions are unbounded; wrap-around at the edge of 32-bit tree positions is not modelled.
- Liquid: levels and sums are unbounded integers; the bounds proved keep them within the 8 and 16 bits of the program for capacities up to 31.
- LiquidSteps.GasDirections: the wind and its random choice come in as an optional side for each look, random numbers as counters.
- LiquidMap: node encodings (source and flowing variants, the level mask), stable nodes and melting neighbours, falling nodes, dropped items, lighting and the time limit are not part of this model; group weights are natural numbers.
- LiquidMap.LiquidMap.Run: the nodes for the next run are kept in one list; the program groups those inside a block first, which changes only their order.
- PluralForm: blanks are those of ASCII, numbers are read as on a system with 64-bit `unsigned long`, and the header line around the formula is not modelled.
- ChatFormat: colours, ages and the conversion of links to UTF-8 are not modelled; texts are sequences of characters.
- ChatBuffer.TopMessageStays: is about messages that begin in the top row; from the middle of a message the program goes on to the next one.
- ChatBuffer: `deleteByAge` only counts messages before `deleteOldest`; the prompt and its history are separate.
- WorldMerge: partial and lazy updates, lights, timestamps taken from the clock, interruption and exceptions are not modelled; blocks in memory count as stored on the ground level.
- Paths: drive letters and every function that touches the file system.
- Emerge: waking threads, loading and generating blocks, and the metrics; callbacks are numbers.
- Circuits, weather, physics, the network, the database and the user interface are outside this project.
