# The game server, verified in Dafny

A model of the hardest parts of a game server for an online role-playing game, with proofs.
`dafny verify dfyconfig.toml` checks the whole of it.

**The map.** `QuadKeys`, `QuadTree`, `MapIndex`: the quadtree over the map and the links that thread its leaves;
what it means is a map from coordinates to tiles, and a leaf for every creature. `Spectators`: the walk along the links
finds what a plain filter over all creatures finds. `PathWorld`, `AStarNodes`, `PathInvariant`, `PathSearch`: the path
search with its bounded pool of nodes and its pruned successors, against walks and their costs; `PathLimits` says what
the bounds mean in terms of tiles and costs, and `PathExamples` has maps on which they are met; `PathPlain` has walks
where nothing is in the way, `PathApproach` what the range of the goal test means and how a target is approached.
`SightLine`: the integer ray and its half cell of error. `TileFlags`: what an item does to the flags of its tile, and
whom the tile lets in. `WalkCache`: the grid around a creature that is shifted and patched instead of asked for again.

**Containers.** `Containers`: items in memory, the forest they form, the weight that every container keeps of what is in it.
`ContainerContents`: the true weight, and the breadth-first iterator. `ItemMove`: moving items between containers, with
stacks split, merged and cloned; `MoveExamples` makes two moves that go wrong. `Coins`: finding the coins in nested bags,
by worth. `Payout`: amounts in coins, in 32 and 16 bits. `Giving`: where coins go, and which end up nowhere. `Paying`:
taking a price, and the change. `Purses`: the code itself. `LostChange`: what is enough for no change to be lost, and
inputs for which it is.

**Storage.** `PropStreams`, `ItemCodec`, `ItemRoundTrip`, `ItemSerialize`: the byte format of nested items; `ItemOldBytes`:
what is read of bytes that none is written as. `Rows`: the rows that a player's items are kept in. `OtbTree`,
`OtbLoader`: the escaped tree format and the parser with a stack.

**Protocols.** `Trade`: who trades with whom, and the ledger of the items offered. `Decay`: the wheel of decaying items.

`Basics` has what several of them use. An item or a creature of the server has many sides; a component has in its own
`Item` or `Creature` those fields of it that its code touches.

## How it is done

Objects whose fields the server updates are classes here, and their methods are proved against functions and predicates
on values; lemmas about those then hold for every run. Where the code does not do what one would expect, the code is kept
and the exact condition is proved:

* A search for a path looks at no more than 512 tiles, and without a search distance at no more than 100 of them closely.
  With a distance of at most 10 neither can matter, and without one what is found is still a cheapest best match so far:
  `PathSearch.GetPathMatching`. Otherwise a limit ends the search if so many tiles are reached more cheaply than any
  perfect match, and only if so many are reached at no more than its cost: `PathSearch.WhenUsedUp`,
  `PathSearch.WhenStopped`. The result need then not be the best: `PathExamples.UsedUpIsNotLeast`,
  `PathExamples.StoppedMissesTheTarget`.
* With limits, a move makes the list of a full container longer exactly when a stack of runes is put at a place it has:
  runes are not merged. Pieces get lost exactly when the place lies beyond the capacity, and a stack is there that does
  not take them: `ItemMove.WhenContainersOverflow`, `ItemMove.WhenPiecesGetLost`, and for the move itself
  `ItemMove.InternalMoveItem`. `MoveExamples.RunesOverfill` and `MoveExamples.RunesGetLost` are such moves.
* After a diagonal step to the south the walk cache is wrong at its edges. `WalkCache.Creature.OnMove` says for which maps
  it is not, and `WalkCache.SouthDiagonalLosesTheEdge` gives a map for which it is.
* A change of an item on a tile goes unseen by the walk cache when neither type blocks. The cache is then wrong exactly
  if nothing is in the way of the creature and the tile begins or ceases to lead to another floor, to teleport or to have
  a field it shuns: `WalkCache.Creature.TileItemChanges`, `WalkCache.Creature.TileItemGoes`. A stone that turns into a
  hole is such a change: `TileFlags.HoleGoesUnseen`.
* Money is paid out exactly unless a product runs over 32 bits, and then by luck in one case of 25:
  `Payout.PaidIsExact`.
* Coins that are paid out, the change among them, get lost when the cylinder takes them in but has not the room it is
  asked for, or when it refuses them and the tile is full: `Giving.GiveAdds`. Of a payment that is exactly the change that
  does not arrive, and never more than one coin's worth: `Purses.Purse.RemoveMoney`. None is lost where the tile takes two
  more items and every stack counts: `LostChange.ChangeIsSafe`; some is in `LostChange.FullTileLosesChange` and
  `LostChange.HeavyStackLosesChange`.
* An exchange is two moves, and the outcome of the second is ignored. One player may give for nothing:
  `Trade.ExchangeIsAgreed` says exactly when, and `Trade.OneSidedExchange` has such a run.
* An item whose type takes no charges but that has some reads back with another count: `ItemRoundTrip.NormalSettles`
  says which items storing a second time changes again.
* A file with a tree of one node without properties is too short to be accepted: `OtbLoader.EncodedFileIsRead`.
* Between floors the second look along a sight line is the first one again: `SightLine.IsSightClear`.
* The comment on the path search names A*; the code keeps no estimate of the way left, and searches by cost alone.

Values the code reads from headers are the ones written there: 512 nodes, costs 10 and 25, leaves of 8 by 8 tiles,
16 layers, a window of 11 tiles to each side, four buckets and 250 milliseconds.

## Model

| member | source | states |
|---|---|---|
| AStarNodes.NodePool.constructor | src/map.cpp:742-755 | a new pool has the start as its only node, open, of cost 0 |
| AStarNodes.NodePool.CreateOpenNode | src/map.cpp:757-773 | appends an open node and enters it in the table, or reports that the pool is used up and changes nothing |
| AStarNodes.NodePool.GetBestNode | src/map.cpp:775-794 | the first open node of least f, or none if none is open |
| AStarNodes.NodePool.CloseNode | src/map.cpp:796-802 | closes the node; the counter of closed nodes stays exact just when the node was open |
| AStarNodes.NodePool.OpenNode | src/map.cpp:804-812 | opens the node; the counter of closed nodes, if exact, stays so |
| AStarNodes.NodePool.GetNodeByPosition | src/map.cpp:819-826 | the only node at a position, or none |
| AStarNodes.ClosedCountBound | src/map.cpp:814-817 | closed nodes are at most all nodes, so there are no more rounds than the pool has nodes |
| PathInvariant.AppendKeeps | src/map.cpp:670-692 | a new node keeps: f is the parent's f plus the cost of the step, parents are closed and no dearer, the table has each position once |
| PathInvariant.ImproveKeeps | src/map.cpp:670-683 | a node that is found more cheaply is open: closed nodes are never opened again; its new parent keeps all of that |
| PathInvariant.PrunedIsNoCheaper | src/map.cpp:574-645 | a neighbour that the direction of the parent excludes is the parent, or is reached strictly more cheaply from the parent |
| PathInvariant.PrunedIsRelaxed | src/map.cpp:612-645 | so nothing is lost by not trying it: the closed parent has tried it |
| PathInvariant.SelectKeeps | src/map.cpp:591-602 | nodes are taken in the order of non-decreasing f, each from a closed parent |
| PathInvariant.CloseKeeps | src/map.cpp:647-697 | closing a node whose neighbours were all tried keeps the frontier: every closed node has passed its cost on |
| PathInvariant.FrontierCuts | src/map.cpp:591-697 | any walk over admitted tiles ends at a closed node no dearer than the walk, or some open node is no dearer |
| PathInvariant.SelectedIsLeast | src/map.cpp:591-602 | the f of the node that is taken is at most the cost of any walk to it |
| PathSearch.Try | src/map.cpp:648-693 | one neighbour is skipped, improved or appended, and the search invariant kept; or the pool is used up |
| PathSearch.Expand | src/map.cpp:612-694 | all neighbours that are not excluded have been tried, and with them all there are |
| PathSearch.PickedIsLeast | src/map.cpp:604-610 | the first node that matches best is reached at least cost among all tiles that match so well |
| PathSearch.NothingOpen | src/map.cpp:591-598 | with no node open, no walk ends at a tile that matches, or matches better |
| PathSearch.SmallSearchFits | src/map.cpp:565-573 | a search distance of at most 10 cannot use up the pool |
| PathSearch.BecomesFull | src/map.cpp:588-697 | nor can a search without one: at most 8 nodes in the first round, 5 in any other; the pool is used up only when more tiles than nodes lie within a step of tiles no dearer than the one expanded |
| PathLimits.CheapIsSettled | src/map.cpp:591-697 | as long as the pool is not used up, every tile with a walk cheaper than the open nodes has a closed node |
| PathLimits.SettledIsNotCrowded | src/map.cpp:591-697 | so those tiles and what is a step away are no more than the pool has nodes |
| PathLimits.ManyRoundsAreLengthy | src/map.cpp:591-602 | and after 100 rounds there are 100 tiles no dearer than the last |
| PathSearch.ReadDirections | src/map.cpp:703-737 | the directions read back from the found node replay the path of its parents |
| PathSearch.Search | src/map.cpp:588-701 | how it ends: complete, with the cheapest best match or none; used up, or stopped, at a cost below which nothing is better, with as many tiles as that takes |
| PathSearch.GetPathMatching | src/map.cpp:565-738 | replayed, the directions are a walk over admitted tiles to a match; without a search distance, or with one of at most 10, a cheapest one of its kind; for 1 to 10 there is a path exactly if there is one to find |
| PathApproach.FullRange | src/creature.cpp:1499-1545 | with a full search the range is all that is at most the target distance away |
| PathApproach.PartialRange | src/creature.cpp:1515-1545 | with a partial one, what of it does not lie beyond the target from the start, on either axis |
| PathApproach.RangeInMirror | src/creature.cpp:1499-1545 | mirroring start, target and tile on either axis changes no answer |
| PathApproach.WalksStay | src/map.cpp:646-668 | every tile of a path can be walked on, is within the search distance, and in range if the distance is to be kept |
| PathApproach.GoesStraight | src/map.cpp:565-738 | from each of the four sides, with the straight way free and within a search distance of at most 10, the search goes it to the tile before the target, at 10 a step |
| PathSearch.WhenUsedUp | src/map.cpp:588-701 | with a search distance, the nodes are used up if more tiles than there are nodes come before any perfect match, and only if so many come no later than all of them |
| PathSearch.WhenStopped | src/map.cpp:591-598 | without one, the same for the 100 rounds and the tiles reached |
| PathExamples.UsedUpIsNotLeast | src/map.cpp:588-701 | a map on which, for any search distance from 18 on, the search goes a way that is not the cheapest |
| PathExamples.StoppedMissesTheTarget | src/map.cpp:591-598 | a map on which no path is found without a search distance, though there is one |
| QuadKeys.LeafKeyFromRoot | src/map.cpp:879-890 | going down by the top bits of both coordinates ends at the leaf of their high bits |
| QuadKeys.SameLeaf | src/map.cpp:879-907 | two coordinates share a leaf exactly when their high bits agree |
| QuadKeys.Neighbours | src/map.cpp:106-135 | the sums by which the four leaves around one are looked up are those leaves, modulo 65536 |
| QuadTree.QTreeNode.GetLeaf | src/map.cpp:879-890 | the leaf of a coordinate, or null exactly when it does not exist |
| QuadTree.QTreeNode.CreateLeaf | src/map.cpp:892-907 | makes the leaf of a coordinate and what is missing above it; every other node stays |
| QuadTree.QTreeNode.AddCreature | src/map.cpp:927-934 | a creature joins the list, players also theirs |
| QuadTree.QTreeNode.RemoveCreature | src/map.cpp:936-949 | swapping with the last and popping removes this creature and no other from both lists |
| MapIndex.ThreadedIsLinked | src/map.cpp:106-135 | the four assignments around a new leaf are what makes every link right |
| MapIndex.Map.constructor | src/map.cpp:78-94 | an empty map satisfies the invariant |
| MapIndex.Map.GetQTNode | src/map.cpp:879-890 | looks up the leaf of a coordinate |
| MapIndex.Map.GetTile | src/map.cpp:78-94 | reads the map from coordinates to tiles that the tree stands for |
| MapIndex.Map.LinkedLeaf | src/map.cpp:103-135 | every leaf's links to the south and the east are the leaf one further, modulo 65536, or null exactly when there is none |
| MapIndex.Map.SetTile | src/map.cpp:96-155 | a free cell gets the tile, an occupied one keeps its own, every other cell stays; the links stay right |
| MapIndex.Map.PlaceCreature | src/map.cpp:218-226 | a creature is in the leaf of its position, and nowhere else, once it is placed |
| MapIndex.Map.RemoveCreature | src/tile.cpp:1107-1111 | and nowhere once it is removed |
| MapIndex.Map.MoveCreature | src/map.cpp:256-264 | and in the leaf of its new position once it has moved, be it the same leaf or another |
| Spectators.Collect | src/map.cpp:331-344 | takes from one leaf those creatures the query wants |
| Spectators.GetRow | src/map.cpp:328-349 | one row of leaves by the links to the east |
| Spectators.GetSpectators | src/map.cpp:303-357 | finds exactly the creatures on the map that a plain filter by floor and skewed window would find |
| SightLine.NextCellStaysNear | src/map.cpp:500-519 | every round takes one step off the way left, and the cell stays within half a cell of the line |
| SightLine.RayOk | src/map.cpp:488-521 | the ray takes exactly the longer distance in steps, stays within half a cell of the line, and ends at the destination |
| SightLine.CheckSightLine | src/map.cpp:488-534 | clear exactly when no cell of the ray blocks, and no tile above it on the floors between |
| SightLine.IsSightClear | src/map.cpp:536-544 | on one floor either direction will do; between floors the second look is the first one again |
| WalkCache.Creature.UpdateMapCache | src/creature.cpp:295-309 | afterwards the grid says of every tile what the map says |
| WalkCache.Creature.UpdateTileCache | src/creature.cpp:311-326 | sets the cell of one tile, if it is in the window |
| WalkCache.Creature.OnMove | src/creature.cpp:490-570 | after a step the shifted grid is what asking for all of it would give; after a diagonal step to the south exactly if the map repeats itself at the edges |
| WalkCache.Creature.EdgesDecide | src/creature.cpp:522-560 | why: rows at the top and the bottom tell about tiles one to the side |
| WalkCache.SouthDiagonalLosesTheEdge | src/creature.cpp:522-560 | a map for which the grid is wrong after such a step |
| WalkCache.Creature.OnCreatures | src/creature.cpp:391-420 | after creatures came, went or moved on some tiles the grid is right again |
| WalkCache.Creature.OnAddTileItem | src/creature.cpp:359-364 | after an item was added the grid is right again |
| WalkCache.Creature.OnUpdateTileItem | src/creature.cpp:366-377 | after an item changed it is right exactly if the old type or the new one blocks, or the tile lets in whom it did before, or is not in the window |
| WalkCache.Creature.OnRemoveTileItem | src/creature.cpp:379-389 | after an item went it is right exactly if its type blocks or is ground, or the same |
| WalkCache.Creature.TileItemChanges | src/creature.cpp:366-377 | in terms of the tile: seen, not in the window, something in the way anyway, or as inviting as before |
| WalkCache.Creature.TileItemGoes | src/creature.cpp:379-389 | the same for an item that goes, ground that is no longer of a ground type among them |
| TileFlags.UnseenUpdate | src/tile.cpp:925-944 | what an unseen update does to the flags, and that the answer changes exactly if nothing is in the way and the tile begins or ceases to be inviting |
| TileFlags.UnseenRemoval | src/tile.cpp:1018-1105 | what an unseen removal does |
| TileFlags.HoleGoesUnseen | src/tile.cpp:925-944 | a stone turns into a hole, and nobody takes notice |
| TileFlags.BlocksStayOk | src/tile.cpp:1468-1580 | whatever item changes or goes, the flags of what is in the way stay right: each is set exactly if some item on the tile calls for it |
| TileFlags.LeadsStayOk | src/tile.cpp:1527-1580 | those of what leads away and of fields do exactly if the item that goes is the only one of its sort |
| TileFlags.LetsInByItems | src/tile.cpp:462-530 | with the right flags a monster is let in exactly by what is on the tile: ground, nothing that leads away, nothing in the way but what it can push, and no field it shuns on top |
| WalkCache.Creature.GetWalkCache | src/creature.cpp:328-357 | blocked, free or not in the window |
| WalkCache.Creature.CanWalkTo | src/map.cpp:546-563 | with a grid that is right the answer is that of the map |
| Containers.Item.UpdateItemWeight | src/container.cpp:115-121 | adding a difference at a container and at every container around it makes all their weights right at once |
| Containers.Item.QueryAdd | src/container.cpp:235-295 | yes exactly when the container is open, the item can be picked up and is neither the container nor around it, and there is room outside an inbox; each refusal for its reason |
| Containers.Item.AddThing | src/container.cpp:446-465 | an item that passed the query goes to the front; the forest and all weights stay right |
| Containers.Item.AddItemBack | src/container.cpp:467-476 | the same, at the back |
| Containers.Item.InternalAddThing | src/container.cpp:641-651 | the same, for loading |
| Containers.Item.UpdateThing | src/container.cpp:478-499 | an item takes on a type and a count; all weights follow |
| Containers.Item.ReplaceThing | src/container.cpp:501-523 | one item for another at its place; the old one is loose, all weights follow |
| Containers.Item.RemoveThing | src/container.cpp:525-558 | pieces off a stack, or an item out of the list; all weights follow |
| Containers.Item.GetThingIndex | src/container.cpp:560-570 | the place of an item, or -1 |
| Containers.WeightsAreBalanced | src/container.cpp:115-126 | a container's cached weight is the sum of what its items weigh |
| Containers.WeightOfParts | src/item.cpp:781-788 | what is no stack, and a stack of at most one piece, weighs as much as one piece; a stack as much as its parts |
| Containers.Around | src/container.cpp:255-275 | a container and those around it, found by following parents, are a finite set within the forest, which has with each its parent; all but the container rank lower, so that none is around itself |
| Containers.AroundWithin | src/container.cpp:255-275 | what is around a container lies in every set that has it and with each its parent |
| ContainerContents.CachedWeightIsTrue | src/container.cpp:115-126 | the weight from the cache is the weight counted through everything inside |
| ContainerContents.StepKeeps | src/container.cpp:675-693 | one step of the iterator keeps: what is passed or waits is all there is so far, once each |
| ContainerContents.IteratorIsDone | src/container.cpp:660-693 | the iterator passes every item inside, at any depth, exactly once |
| ContainerContents.GetItemHoldingCount | src/container.cpp:168-175 | counts the items inside, at any depth |
| ContainerContents.IsHoldingItem | src/container.cpp:177-185 | true exactly for the items inside, at any depth |
| ItemMove.QueryMaxCount | src/container.cpp:297-348 | exactly how many pieces a container takes: a hundred for each free place and what its stacks, or the one at the index, lack; and the error exactly when that is too few |
| ItemMove.MaxCountIs | src/container.cpp:297-348 | so many pieces and those that are there fill all places: a hundred for each item that is not like it, and the stacks like it |
| ItemMove.QueryRemove | src/container.cpp:350-370 | allowed exactly when the item is there, has the pieces and may be moved |
| ItemMove.QueryDestination | src/container.cpp:372-439 | exactly where a container sends a move: up, into the container at the index, onto its first stack that fits, to the index or to no place in particular |
| ItemMove.StackIndex | src/container.cpp:411-421 | the first stack that fits, if there is one |
| ItemMove.Resolve | src/game.cpp:1039-1055 | where the move goes in the end, asking from container to container at most 16 times, the first time alone with the flags |
| ItemMove.TwoAreAsked | src/game.cpp:1039-1055 | the second container that is asked answers with itself, so that no move asks more than two |
| ItemMove.CheckMove | src/game.cpp:1091-1134 | no error exactly if the container takes the item in, there are pieces to take that may be taken, and no container that is in a trade swallows it; then the exact number of pieces |
| ItemMove.RoomIsEnough | src/game.cpp:1095-1121 | an item that is no stack and may be added and taken goes exactly if there is a free place or limits do not count, however many are asked for |
| ItemMove.PiecesThatGo | src/game.cpp:1095-1121 | of a stack all that is asked for goes if there is a free place, else what the stacks lack; of runes the whole stack is asked for |
| ItemMove.WhenPiecesGetLost | src/game.cpp:1136-1169 | pieces get lost exactly when the place lies beyond the capacity and the stack there is of runes, or limits do not count and it lacks fewer than are asked for; never more than are taken |
| ItemMove.WhenContainersOverflow | src/game.cpp:1095-1169 | with limits, the list of a full container gets longer exactly when runes are put at a place it has, and not only shifted within it |
| ItemMove.Transfer | src/game.cpp:1136-1169 | take out, merge, clone, put in: the pieces of each kind, container by container, before and after; what arrives in front of the list is the item itself, or a new stack like it with the pieces no stack took |
| ItemMove.TransferAll | src/game.cpp:1136-1169 | kind, attributes, place and pieces of every item after a transfer: only the item that is moved and the stack aimed at are not as before |
| ItemMove.InternalMoveItem | src/game.cpp:1034-1203 | whether the move is made, and what becomes of the pieces in either container, is settled by the forest before; if it is not, nothing changes; an item that is no stack arrives itself, with what is in it, a stack as a new one like it; every other item and list stays; no stack grows above 100; when pieces get lost and when a container gets too long, exactly |
| MoveExamples.RunesOverfill | src/game.cpp:1136-1169 | a stack of runes put into a bag of one place that has one: the bag has two |
| MoveExamples.RunesGetLost | src/game.cpp:1136-1169 | three runes stacked by themselves onto runes that a bag has no place for are gone |
| Coins.Emplace | src/game.cpp:1406-1447 | the map by worth stays sorted, and has one entry more, behind those worth no more |
| Coins.Gather | src/game.cpp:1404-1447 | all coins at any depth are found, once each, sorted by worth, and their sum is the sum of all stacks |
| Coins.FreePlacesAre | src/container.cpp:297-348 | the free places of nested bags are what all of them hold less what is in them |
| Payout.PaidIsExact | src/game.cpp:1473-1514 | coins for an amount are worth the amount exactly when the 32-bit product does not run over, or runs over a multiple of 25 times and a gold coin is due |
| Payout.Change | src/game.cpp:1458-1463 | the pieces taken off the broken stack are no more than it has; the change is something, and at most one piece |
| Giving.NothingIsLost | src/game.cpp:1244-1276 | coins the cylinder does not refuse are all kept exactly if there is room for them, and what is left over on a full stack is kept in its turn; never more are lost than are given |
| Giving.GiveAdds | src/game.cpp:1486-1489 | coins given to the cylinder, or else to its tile, add their worth less that of those lost, which are none exactly if they are kept, or refused while the tile is not full |
| Giving.GiveAllAdds | src/game.cpp:1473-1514 | the same for any number of batches, one after the other |
| Giving.PutKeepsPlaces | src/container.cpp:235-295 | every new stack takes a free place |
| Giving.PutTakesRoom | src/container.cpp:297-348 | where every stack is counted, coins that are kept take exactly as much of the room as they are |
| Giving.BagsTakeWhatFits | src/container.cpp:297-348 | onto a stack in a bag coins go if there is room for all, and those that fit on it are not lost |
| Giving.GiveAllKeepsPlaces | src/game.cpp:1473-1514 | so of any number of batches no more become new stacks in the cylinder than it has free places |
| Giving.BatchesAre | src/game.cpp:1473-1514 | the batches for an amount are worth what is paid out for it, none more than 255 pieces |
| Purses.Purse.QueryMaxCount | src/player.cpp:2360-2434 | a hundred pieces for each free place and what the stacks that count lack |
| Purses.Purse.InternalAddItem | src/game.cpp:1212-1287 | new coins are where the specification puts them, and as many lost |
| Purses.Purse.AddOnto | src/game.cpp:1244-1276 | merging with a stack, and the remainder by itself |
| Purses.Purse.DropOnTile | src/tile.cpp:606-614 | a tile refuses coins exactly when 1000 items are on it; else they join those on top, or lie on them |
| Giving.DropPacks | src/game.cpp:1234-1276 | no stack on the tile grows above 100, and a new one is put on coins of its kind only if these are 100 |
| Purses.Purse.AddMoney | src/game.cpp:1473-1514 | the batches of an amount are given in turn, with exactly the loss that giving them has; every new stack takes a free place |
| Paying.WholeStacksPay | src/game.cpp:1453-1469 | the first stacks by worth go whole, and pay for all but what the next is broken for |
| Paying.BreakPays | src/game.cpp:1458-1463 | the change is given, then the pieces are taken: the worth falls by what was left to pay, and by what is lost of the change; none is lost exactly if all of it arrives |
| Paying.TakePays | src/game.cpp:1453-1469 | so for the whole price, and at most one stack is broken |
| Paying.TakeKeepsPlaces | src/game.cpp:1453-1469 | stacks that are gone leave their places free, those of the change take free ones |
| Purses.Purse.RemoveMoney | src/game.cpp:1394-1471 | succeeds exactly when the coins are worth the price; the worth then falls by exactly the price and the change that is lost, at most a crystal coin, none exactly if it all arrives; coins of least worth go first and at most one stack is broken; places in use and free ones are as many as before |
| LostChange.ChangeIsSafe | src/game.cpp:1458-1463 | no change is lost, wherever the cylinder puts it, if the tile takes two more items and every stack counts |
| LostChange.OnePlaceTakesOneStack | src/game.cpp:1497-1513 | with one free place, of the coins for 9999 those of platinum are kept and those of gold lie on the tile |
| LostChange.FullTileLosesChange | src/tile.cpp:606-610 | a crystal coin broken for a price of 1 on a full tile, and all the change is lost |
| LostChange.HeavyStackLosesChange | src/game.cpp:1244-1276 | a coin of change is put on a stack that the cylinder does not count, and is lost, whatever tile it is |
| LostChange.SmallRoomLosesCoins | src/game.cpp:1244-1276 | fifty coins paid out to room for five |
| Paying.SettledInOrder | src/game.cpp:1453-1469 | why: what is sorted by worth is taken from the front |
| PropStreams.NumbersReadBack | src/fileloader.h:102-168 | numbers come back as written, modulo their width |
| PropStreams.PropWriteStream.WriteString | src/fileloader.h:170-180 | a length and the bytes; a string that is too long is written as an empty one |
| PropStreams.PropStream.Read | src/fileloader.h:102-111 | reads a number and moves on, or reads nothing |
| PropStreams.PropStream.ReadString | src/fileloader.h:113-130 | reads a string and moves on, or fails |
| PropStreams.PropStream.Skip | src/fileloader.h:132-139 | moves on if there is so much left |
| ItemRoundTrip.FieldReadsBack | src/item.cpp:373-759 | one attribute read from its bytes is the one that was written, assigned as the reader does |
| ItemRoundTrip.NodeReadsBack | src/item.cpp:373-759 | all attributes of an item read back are its normal form |
| ItemRoundTrip.ItemReadsBack | src/iomapserialize.cpp:116-165 | an item read from its bytes, with any bytes behind them, is its normal form with all its items in the same order, and exactly its bytes are consumed |
| ItemRoundTrip.ItemsReadBack | src/iomapserialize.cpp:116-132 | the items of a container, saved from the last to the first and pushed to the front |
| ItemRoundTrip.NormalSettles | src/item.cpp:360-759 | reading and storing again changes nothing more exactly if charges have a place in every item's type or happen to fit |
| ItemOldBytes.SubTypeIsSet | src/item.cpp:333-371 | a count, charge or fluid is what it was set to, up to its width, and nothing else changes |
| ItemOldBytes.RuneChargesAreRead | src/item.cpp:375-385 | the charges of runes in older files are read as a count is |
| ItemOldBytes.UniqueIdIsRead | src/item.cpp:397-405 | a unique id is taken once |
| ItemOldBytes.ForeignIsPassed | src/item.cpp:584-621 | fields of depots, doors, beds and teleports are passed over with their bytes; without them the item is not read |
| ItemOldBytes.UnknownIsBad | src/item.cpp:622-629 | a tag that is not known, or one of contents where there are none, ends the reading |
| ItemOldBytes.MadeOnce | src/item.cpp:41-86 | what an item is made of instead is not replaced again, and which are replaced |
| ItemSerialize.SerializeAttr | src/item.cpp:653-759 | writes the attributes in the order and form of the specification |
| ItemSerialize.SaveItem | src/iomapserialize.cpp:217-235 | writes an item with everything in it |
| ItemSerialize.ReadAttr | src/item.cpp:373-632 | reads one attribute into the item, or fails |
| ItemSerialize.UnserializeAttr | src/item.cpp:634-646 | reads attributes up to the end, an error, or the count of a container |
| ItemSerialize.LoadItem | src/iomapserialize.cpp:134-165 | reads an item with everything in it, for any bytes; none is made of a type that is no more |
| ItemSerialize.LoadContainer | src/iomapserialize.cpp:116-132 | reads as many items as announced, then the end |
| Rows.SaveItems | src/iologindata.cpp:582-640 | breadth first with running ids: every id is above its parent's and above the places; reading the rows alone, by parent id and order, gives back the items of every place with everything in them |
| Rows.RowsTellTrees | src/iologindata.cpp:599-640 | the ids of the rows alone fix the nesting: no other knowledge of the items is needed to read them |
| Rows.LoadItems | src/iologindata.cpp:968-992 | an item of its own for every row whose type can be made |
| Rows.LoadPlayer | src/iologindata.cpp:414-446 | for any table, each item and place has the items of its rows, in the order of their ids |
| Rows.SavedIsTable | src/iologindata.cpp:582-640 | no id of an item is the id of a place |
| Rows.LoadedIsSaved | src/iologindata.cpp:425-446 | what is loaded from saved rows is what was saved: same places, same nesting, same order |
| OtbTree.UnescapeEscape | src/fileloader.cpp:107-122 | removing escapes undoes escaping |
| OtbTree.EncodedTreeReadsBack | src/fileloader.cpp:53-105 | by recursive descent an encoded tree gives back its types, its shape and its properties |
| OtbLoader.OpenResumes | src/fileloader.cpp:66-80 | pushing a node at a start marker does not change what the file means |
| OtbLoader.CloseResumes | src/fileloader.cpp:81-88 | nor does popping one at an end marker |
| OtbLoader.OpenNode | src/fileloader.cpp:66-80 | a child is added to the innermost node: the nodes on the stack stay each the last child of the one below, and only finished ones move |
| OtbLoader.CloseNode | src/fileloader.cpp:81-88 | the innermost node is finished and holds its tree |
| OtbLoader.Loader.ParseTree | src/fileloader.cpp:53-105 | for any file, the loop with a stack builds the tree that recursive descent reads, and fails exactly if that fails |
| OtbLoader.Loader.GetProps | src/fileloader.cpp:107-122 | the properties without escapes, or false for an empty range |
| OtbLoader.Loader.Open | src/fileloader.cpp:30-42 | accepts a file exactly if it is long enough and has the identifier, or the wildcard |
| OtbLoader.EncodedFileIsRead | src/fileloader.cpp:30-105 | the file of an encoded tree is accepted unless the tree is one bare node, and then gives back the tree |
| Trade.StartKeeps | src/game.cpp:2344-2375 | an offer keeps the pairs symmetric and the ledger exact |
| Trade.AcceptKeeps | src/game.cpp:2377-2476 | so does an acceptance, with the exchange and whatever others give up meanwhile |
| Trade.CloseKeeps | src/game.cpp:2575-2617 | so does giving up, even in the middle of an exchange, which it does not touch |
| Trade.RunKeeps | src/game.cpp:2295-2617 | so does every run of requests, acceptances and refusals by any players |
| Trade.RestMeans | src/game.cpp:2344-2617 | what that says: partners name each other, nobody rests in an exchange, no pair rests with both accepted, the ledger has exactly the offered items with the one who offers each |
| Trade.ExchangeIsAgreed | src/game.cpp:2402-2447 | when both, one or no items change hands, by the outcome of either move; what does is what both offered, both have accepted, and both are free afterwards |
| Trade.OfferIsMade | src/game.cpp:2344-2375 | an offer is made exactly if neither trades with another and the player has none open; and then what becomes of the two, and that all else stays |
| Trade.AcceptDecides | src/game.cpp:2377-2411 | an acceptance counts exactly from a player with a trade not accepted yet, in sight; before the partner has accepted it is noted and nothing else changes; after, the trade is over, be the exchange allowed or not |
| Trade.AcceptEnds | src/game.cpp:2400-2476 | when it is over both partners are free, and so are those, with their partners, who give up while items move; exactly their items are off the ledger, all others are as they were |
| Trade.OneSidedExchange | src/game.cpp:2432-2441 | a run at whose end one item has changed hands and the other has not, as a success |
| Trade.CloseEndsTheTrade | src/game.cpp:2575-2617 | giving up frees both partners, takes their items off the ledger and touches nobody else |
| Trade.OthersGoOn | src/game.cpp:2377-2476 | an acceptance touches no trade but the player's own and those given up meanwhile |
| Trade.Game.InternalStartTrade | src/game.cpp:2344-2375 | the step of an offer, and when it is refused |
| Trade.Game.PlayerAcceptTrade | src/game.cpp:2377-2476 | the step of an acceptance, and what changes hands |
| Trade.Game.InternalCloseTrade | src/game.cpp:2575-2617 | the step of giving up |
| Trade.Game.PlayerRequestTrade | src/game.cpp:2295-2342 | an item that is on the ledger cannot be offered again |
| Decay.LifetimeIs | src/game.cpp:3751-3793 | below a second an item fires at tick 1, else at tick 4 per whole second, and one more from 875 milliseconds of the rest on |
| Decay.NeverLate | src/game.cpp:3751-3793 | an item of a second or more is never late, and less than 875 milliseconds early |
| Decay.Game.StartDecay | src/game.cpp:3717-3735 | an item enters the wheel once; one that is in it stays as it is; one that has no time left turns into what it turns into at once, and enters for as long as that lasts |
| Decay.Game.Cleanup | src/game.cpp:3904-3912 | every item that waits is in a bucket, due after its lifetime |
| Decay.Game.CheckItem | src/game.cpp:3757-3789 | an item that is looked at fires exactly if it is due, and otherwise is in the bucket that will be looked at in time |
| Decay.Game.CheckDecay | src/game.cpp:3751-3793 | at every tick exactly the items that are due and can decay fire, each once; what turns into something that decays is due after that lifetime; every item is in one place of the wheel |
| Decay.Game.RunTicks | src/game.cpp:3751-3793 | over any number of ticks an item fires when it is due, then each time the lifetime of what it turned into is over, at no other tick, and never again once it turns into what does not decay |
| Decay.Game.Outlast | src/game.cpp:3717-3793 | an item that starts to decay, or what it turns into at once, fires first when its lifetime is over, and then in turn |

## Left out

- PathSearch.GetPathMatching: the map around the edge of the coordinate space is left out, where 16-bit neighbours wrap; a tile is known by its position, the 16-bit key of the node table being one to one there.
- PathSearch.WhenUsedUp: where the tiles get too many at the very cost of a perfect match, the order in which they are looked at decides, which is not part of the condition.
- PathSearch.WhenStopped: likewise for the 100 rounds.
- WalkCache.Creature.TileItemChanges: the answer of a tile is that for a monster (src/tile.cpp:483-530), with what other creatures on it do to it as one flag; tiles change by one item at a time.
- WalkCache.Creature.OnMove: the window lies inside the coordinate space; the creature's own cell is not looked at, as the code never asks for it.
- SightLine.CheckSightLine: coordinates are unbounded integers; the floors below ground are those the map has.
- Containers.Item.UpdateThing: the attributes that a new type brings along or resets are left out.
- MapIndex.Map.SetTile: the items of a tile put on an occupied cell are left out, not merged; the arrays of floors and children are sequences.
- Containers.Item.UpdateItemWeight: weights are unbounded; the 32-bit field holds them modulo 2^32.
- Containers.Item.QueryAdd: with the flag for a child of the owner the answer is the top cylinder's, a player's capacity, which is not part of this model.
- Containers.Item.ReplaceThing: the replaced item is let go before the weights are brought up to date, where the code does it after; nothing looks at it in between.
- ItemMove.InternalMoveItem: source and destination are containers; the exchange with the item in the way (src/game.cpp:1059-1089), tiles, players, mailboxes, trash holders and all notifications are left out; a clone has an id that a new item keeps.
- Purses.Purse.AddMoney: at which place the cylinder puts coins, and which stacks it counts in its answer about room, hang on slots, weights and scripts, and are arbitrary; places that held coins take coins; flags are those of the callers, none.
- Purses.Purse.RemoveMoney: coins can be removed; a player as a cylinder is its list of things.
- ItemSerialize.LoadItem: items that cannot be moved, on a tile (src/iomapserialize.cpp:166-212), and the attributes of depots, doors, beds and teleports, which other types pass over; a unique id is taken as free; decaying does not start.
- ItemSerialize.SaveItem: items are values, built from the bytes, where the code fills new objects that nobody else sees yet; the list and the word of bits of the attributes are a map.
- Rows.LoadPlayer: what a row says of the item itself is one value; its attributes are the bytes of `ItemSerialize`. Ids are unbounded. Reward chests and the limit on inbox rows are left out.
- OtbLoader.Loader.ParseTree: it is called once on a loader; reading the file is left out.
- Trade.Game.PlayerAcceptTrade: scripts, sight and the outcome of either move are arbitrary; the items stay where they are. Messages and reference counts are left out.
- Trade.Game.PlayerRequestTrade: distance, the containers around an offered item, the limit of 100 items and scripts are one arbitrary answer.
- Decay.Game.InternalDecayItem: what an item turns into is arbitrary, and it is the same object; that other changes reset an item while it is in the wheel is left out.
- Decay.Game.StartDecay: durations are those a positive 32-bit number can hold.
- Spectator cache, combat, conditions, scripts, networking, the database and the loading of types from XML: no hard property here rests on them.
