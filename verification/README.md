# Drone world block-stacking planners, modelled in Dafny

The system is a planner for a drone that stacks coloured blocks in a bounded
3D integer grid. The drone moves one cell at a time. It can attach the block
directly below it, carry it as a pair, and release it; a released block falls
down its column. Planning runs at two levels:

- a low-level planner flies the drone to a target cell. It runs a tabu search
  over goal states that wrap a copy of the world, then replays the actions
  found on the real world;
- a high-level planner decides which block goes to which slot of the goal
  tower. The strategies are crow search, a genetic algorithm and three cuckoo
  searches, and all of them work on colour pools of blocks.

Drivers alternate the two levels: for every slot, fly to the block, attach,
fly to the slot, release.

The repository holds two generations of this code: the newer `drone_world/`
tree and the older `src/` tree. The older tree also contains an array-backed
grid prototype. Each gets its own Dafny modules:

| file | module | what it models |
|---|---|---|
| common.dfy | Common | bounds, cells, Python's exceptions as `Error`, `Result`, `Option`, sequence helpers |
| labels.dfy | Labels | object ids and label matching (`str_to_id`, case-insensitive `in`) |
| world.dfy | WorldModel | the world: bounds, blocks in insertion order, an optional drone; legality, moves, drop, unit actions, state |
| placement.dfy | Placement | adding the drone and blocks to the newer world |
| newer_world.dfy | NewerWorld | the newer world's label dispatch and `get_drone_location` |
| drone.dfy | DroneOps | attach, release, the joint carrying move with roll-back, attached actions |
| legacy_world.dfy | LegacyWorld | the older world: move counter counted before legality, multi-step attached actions, the fixture |
| node.dfy | Search | search nodes (`Node`, `CostNode`): expansion, path reconstruction |
| tabu.dfy | Tabu | tabu search, newer (with iteration cap) and older (unbounded) |
| goal_state.dfy | GoalState | the goal-state wrapper: heuristic, goal test, replay |
| tabu_planner.dfy | TabuPlanner | the newer low-level planner |
| oracle.dfy | Oracle | Python's `random` calls as draws from a sequence of answers, plus generic loops |
| population_search.dfy | PopulationSearch | goal filling, colour pools, random assignments, fitness, objectives |
| crow_search.dfy | CrowSearch | the newer crow search |
| csa_planner.dfy | CsaPlanner | the newer high-level driver |
| newer_cuckoo.dfy | NewerCuckoo | the newer cuckoo search (nests, Lévy flight, elitism) |
| population_algorithm.dfy | PopulationAlgorithm | the older population base class |
| legacy_crow.dfy | LegacyCrow | the older crow search |
| discrete_cuckoo.dfy | DiscreteCuckoo | the older discrete cuckoo search (two-opt, double bridge) |
| legacy_cuckoo.dfy | LegacyCuckoo | the older cuckoo search over search nodes |
| genetic.dfy | Genetic | the older genetic-algorithm tower planner |
| tower_runner.dfy | TowerRunners | the older tower runners (attach/release replay loops) |
| tower_planner.dfy | TowerPlanners | the older tabu and crow tower planners |
| grid_world.dfy | GridWorld | the array-grid prototype and its objects |

Conventions:

- Every operation is a pure function over immutable values. A method that
  mutates its object returns the new value instead.
- An exception is an `Err` carrying the Python exception's name. An `Err`
  never stands for something the source does not raise, except these two:
  - `Diverges` marks a loop that would spin for ever.
  - `OracleExhausted` means the given answers ran out before the random
    loop finished.
- A randomised operation takes its answers as a sequence of numbers. It
  returns what it computed together with the answers it did not use.
- Euclidean distances are an abstract metric `dist` when they are summed.
  Where only comparisons matter, they are squared integer distances; since
  the square root is monotone, every decision is the same.
- Python 2 iterates dictionaries and sets in an order fixed by the hashes
  of their keys, not in insertion order. The model fixes one order in its
  place: insertion order for dictionaries, and +x, -x, +y, -y, +z, -z for
  sets of unit moves. Known-colour pools are a record with one list per
  colour.

## Model

| member | source | states |
|---|---|---|
| WorldModel.Create | drone_world/drone_world.py:7-24 | The world exists exactly when no axis has its minimum above its maximum; otherwise ValueError. A new world has no blocks and no drone and is valid. |
| WorldModel.FindBlock | drone_world/drone_world.py:70-72 | The block found is the first in insertion order standing on the cell; nothing is found only when no block stands there. |
| WorldModel.CanMoveTo | drone_world/drone_world.py:77-90 | A cell is accepted exactly when it lies inside the inclusive bounds and neither a block nor the drone stands on it. |
| WorldModel.GetObject | drone_world/drone_world.py:67-75 | A block on the cell wins over the drone; the drone is returned only when no block is there; without a drone and without a block on the cell the drone test is an AttributeError. |
| WorldModel.MoveObj | drone_world/object/drone_world_object.py:14-27 | A move succeeds exactly when the target is in bounds and free; then the position becomes old plus delta and the counter grows by the Manhattan length; a failed move changes nothing; no other object changes. |
| WorldModel.ZeroMoveFails | drone_world/object/drone_world_object.py:14-27 | A zero move never succeeds, because the object's own cell is occupied. |
| WorldModel.CanMoveFrame | drone_world/drone_world.py:77-90 | Moving one object leaves the legality of every cell other than its old and new one unchanged. |
| WorldModel.MoveObjSound | drone_world/object/drone_world_object.py:14-27 | A move keeps every object in bounds and no two objects on one cell. |
| WorldModel.Drop | drone_world/object/block.py:8-12 | A dropped block keeps its column, never rises, ends where the cell below is not legal, passed only legal cells, and its counter grows by the distance fallen. |
| WorldModel.DropSound | drone_world/object/block.py:8-12 | Dropping a block keeps the world sound. |
| WorldModel.UnitMoves | drone_world/object/drone_world_object.py:39-58 | The actions are exactly the legal unit moves, in the order +x, -x, +y, -y, +z, -z. |
| WorldModel.State | drone_world/drone_world.py:120-127 | One entry per block in insertion order, then the drone's entry; without a drone it is an AttributeError. |
| WorldModel.SameWorldSameState | drone_world/drone_world.py:142-143 | Worlds that compare equal report the same state. |
| NewerWorld.AddObject | drone_world/drone_world.py:32-54 | A label containing "drone" in any case adds the drone, refused when one exists; any other label adds one block with that label exactly when the cell is legal; a valid world stays valid. |
| NewerWorld.DroneLocation | drone_world/drone_world.py:92-95 | The location is the drone's cell; without a drone it is an AttributeError. |
| Labels.StrToId | src/drone_world/drone_world_object.py:9-20 | Labels containing red, green, blue or drone, tried in that order and in any case, map to their ids; any other label is a ValueError; no label maps to yellow. |
| Labels.UpperLabelMatches | src/drone_world/drone_world_object.py:9-20 | Upper-case labels match, e.g. "Dark-RED" is red. |
| DroneOps.Attach | drone_world/object/drone.py:12-21 | Refused with RuntimeError when a block is already held or when the first object below the drone is not a block; otherwise exactly that block becomes held and nothing moves; without a drone it is an AttributeError. |
| DroneOps.Release | drone_world/object/drone.py:23-29 | Succeeds exactly when a block is held; then the held block drops in its column and the drone holds nothing; otherwise RuntimeError. |
| DroneOps.JointMove | drone_world/object/drone.py:37-60 | While carrying, a successful move shifts both drone and block by the delta and adds its length to both counters; no other block changes and the block stays held. |
| DroneOps.JointMoveSpec | drone_world/object/drone.py:44-60 | The carrying move succeeds exactly when each of the two targets is in bounds and free or being vacated by the partner; a failed move is rolled back to a world equal to the start; validity is kept. |
| DroneOps.DroneMove | drone_world/object/drone.py:31-60 | Without a block the drone makes a plain object move; a failed move leaves an equal world; a valid world stays valid; without a drone it is an AttributeError. |
| DroneOps.DroneMoveKeeps | drone_world/object/drone.py:31-60 | A move keeps the world valid with its drone; without a block no block moves, and with one the block stays held and every other block stays put. |
| DroneOps.CommonMoves | drone_world/object/drone.py:72 | The moves kept are exactly the unit moves legal for both the drone's and the block's cell, in the model's fixed order +x, -x, +y, -y, +z, -z standing for the set's hash order. |
| DroneOps.CommonNotVertical | drone_world/object/drone.py:69-72 | Up and down are never common moves of a drone and the block it holds. |
| DroneOps.DroneActions | drone_world/object/drone.py:62-79 | Without a block, the plain unit moves; with one, the common moves in the fixed order, then up if the cell above the drone is free, then down if the cell below the block is free. |
| DroneOps.CarryActionsExact | drone_world/object/drone.py:62-79 | While carrying, a unit action is offered exactly when the joint move along it would succeed. |
| DroneOps.DroneActionsExact | drone_world/object/drone.py:31-79 | With or without a block, a unit action is offered exactly when the drone's move along it succeeds, and no action is offered twice. |
| Placement.AddDrone | drone_world/drone_world.py:32-39 | A second drone is a RuntimeError; otherwise the drone is added exactly when its cell is legal (else ValueError), with a zero counter and nothing held. |
| Placement.PlaceBlock | drone_world/drone_world.py:41-46 | A block is appended exactly when its cell is legal (else ValueError), then dropped in its column; earlier blocks and the drone are unchanged; validity is kept. |
| LegacyWorld.Create | src/drone_world/drone_world.py:6-23 | The older world exists exactly when no axis has min above max, and starts empty with a zero drone counter. |
| LegacyWorld.AddDrone | src/drone_world/drone_world.py:25-32 | A second drone is a RuntimeError; otherwise the drone with id DRONE is added exactly when its cell is legal. |
| LegacyWorld.AddBlock | src/drone_world/drone_world.py:34-46 | A cell that is not legal is a ValueError; without a drone the column x = z = 0 is refused and any other column fails reading the missing drone; a cell above the drone in its column is refused; an unknown colour is an error; otherwise one block with the colour's id is appended and dropped. |
| LegacyWorld.Move | src/drone_world/object/drone.py:35-73 | The requested length is added to the counter before the move is tried; the move itself is the newer drone's move; validity is kept. |
| LegacyWorld.FailedMoveCounted | src/drone_world/object/drone.py:42-51 | A move into a wall leaves the world unchanged but still adds its length to the counter. |
| LegacyWorld.GetMoves | src/drone_world/object/drone.py:11-14 | The counter, read through the drone; without a drone it is an AttributeError. |
| LegacyWorld.UpRun | src/drone_world/object/drone.py:87-91 | The upward lengths are 1, 2, ... exactly while the cell that far above the drone is legal; the run stops at the first illegal cell. |
| LegacyWorld.DownRun | src/drone_world/object/drone.py:93-97 | The downward lengths are 1, 2, ... exactly while the cell that far below the block is legal. |
| LegacyWorld.Actions | src/drone_world/object/drone.py:75-99 | Without a drone an AttributeError. Without a block the plain unit moves; carrying, exactly the common unit moves in the fixed order, then the upward run, then the downward run. |
| LegacyWorld.CarryActionsSound | src/drone_world/object/drone.py:75-99 | Every action offered while carrying is a joint move that succeeds. |
| LegacyWorld.UpRunReaches | src/drone_world/object/drone.py:87-91 | The upward run offers every length over free cells above the drone. |
| LegacyWorld.DownRunReaches | src/drone_world/object/drone.py:93-97 | The downward run offers every length over free cells below the block. |
| LegacyWorld.CarryCommonOffered | src/drone_world/object/drone.py:85 | While carrying, every unit move both the drone and its block can make is offered. |
| LegacyWorld.CarryUpOffered | src/drone_world/object/drone.py:87-91 | While carrying, every upward length over free cells above the drone is offered. |
| LegacyWorld.CarryDownOffered | src/drone_world/object/drone.py:93-97 | While carrying, every downward length over free cells below the block is offered. |
| LegacyWorld.InitializeLands | src/drone_world/drone_world.py:111-116 | In an empty world with floor 0 holding both cells, the drone is placed at the origin and the red block requested at (-1, 1, 0) drops to (-1, 0, 0). |
| LegacyWorld.InitializeFixture | src/drone_world/drone_world.py:111-116 | In the default world the fixture succeeds with the red block on the floor next to the drone. |
| Search.MakeRoot | src/drone_world/search/node.py:4-12 | A root node carries the state, its heuristic as fitness, and count one. |
| Search.Expand | src/drone_world/search/node.py:14-22 | One child per action of the state, in action order; each child holds the action applied to the parent's state, its fitness is that state's heuristic, its parent is the node and its count is one more. |
| Search.GetActions | src/drone_world/search/node.py:24-33 | The action list is empty exactly at the root. |
| Search.ReplayReaches | src/drone_world/search/node.py:14-33 | Replaying a node's actions from the root's state reproduces the node's state, and there are as many actions as expansion steps. |
| Search.MakeCostNode | src/search/cost_node.py:4-12 | The local cost is the state's heuristic and the total adds it to the inherited cost, so the total never falls below the inherited one. |
| Search.ExpandCost | src/search/cost_node.py:14-22 | One child per action, each on the applied state and inheriting the node's total cost. |
| Search.CostChainTotal | src/search/cost_node.py:4-22 | Along a chain of expansions from a zero-cost root, the total cost is the sum of the heuristics on the path and never decreases from parent to child. |
| Tabu.Choose | drone_world/planner/low_level/tabu_local_search/tabu.py:41-47 | The chosen candidate is the head or a later non-tabu neighbour, is no worse than the head, is strictly better when it differs, and is no worse than any non-tabu neighbour. |
| Tabu.Remember | drone_world/planner/low_level/tabu_local_search/tabu.py:53-58 | The candidate is appended and the oldest entry dropped when the memory exceeds the limit, so a memory within the limit stays within it and ends with the candidate. |
| Tabu.Start | drone_world/planner/low_level/tabu_local_search/tabu.py:25-35 | The run starts with the start node as best and candidate, the memory holding it alone, and zero iterations. |
| Tabu.Step | drone_world/planner/low_level/tabu_local_search/tabu.py:38-61 | A pass fails with IndexError exactly when the candidate has no neighbours; otherwise the new candidate is a neighbour, the best never worsens and changes only to a strictly better candidate, and the counter grows by one. |
| Tabu.Loop | drone_world/planner/low_level/tabu_local_search/tabu.py:36-69 | The loop returns the best node as soon as it meets the goal; a found node meets the goal and is no worse than the best so far; giving up happens exactly when the counter reaches a positive cap. |
| Tabu.Run | drone_world/planner/low_level/tabu_local_search/tabu.py:19-69 | A start meeting the goal is returned at once; a found node meets the goal and is no worse than the start; a run gives up only with a positive cap, when the counter reaches it. |
| Tabu.LegacyRun | src/drone_world/local_search/tabu.py:11-54 | The older run never gives up; a found node meets the goal and is no worse than the start. |
| Tabu.StepToZero | drone_world/planner/low_level/tabu_local_search/tabu.py:41-51 | A first neighbour of zero fitness becomes candidate and best. |
| Tabu.OnePassFound | drone_world/planner/low_level/tabu_local_search/tabu.py:36-69 | A start whose first neighbour has zero fitness and meets the goal is solved by that neighbour in one pass, unless the cap is one pass. |
| Tabu.LoopRooted | drone_world/planner/low_level/tabu_local_search/tabu.py:36-69 | A node the loop returns descends from the start by expansions. |
| Tabu.FoundReplays | drone_world/planner/low_level/tabu_local_search/tabu.py:19-69 | Replaying a found node's actions from the start state reaches the node's state, which meets the goal. |
| GoalState.MakeGoal | drone_world/planner/low_level/local_search_goal/drone_world_goal.py:17-24 | The goal state keeps the target and world and records the world's drone location. |
| GoalState.Apply | drone_world/planner/low_level/local_search_goal/drone_world_goal.py:31-36 | Applying an action moves the drone in the wrapped world, keeps the target, and re-reads the drone location. |
| GoalState.H | drone_world/planner/low_level/local_search_goal/drone_world_goal.py:38-49 | The heuristic is zero exactly when the goal is met. |
| GoalState.SearchNode | drone_world/planner/low_level/local_search_goal/drone_world_goal.py:7-15 | The search root wraps the world and target with count one, and its fitness is zero exactly when the drone already stands on the target. |
| GoalState.ReplayMatches | drone_world/planner/low_level/local_search_goal/drone_world_goal.py:31-36 | Replaying actions on a goal state moves its world exactly as replaying them on the world does, and keeps the target. |
| GoalState.ReplayFound | drone_world/planner/low_level/local_search_goal/drone_world_goal.py:46-49 | Replaying a found node's actions on the world leaves the drone on the target. |
| TabuPlanner.NewerMoveKeeps | drone_world/drone_world.py:110-113 | The search's move is the drone's move and keeps the world valid; without a block nothing else moves, with one the block stays held. |
| TabuPlanner.ReplayKeeps | drone_world/planner/low_level/tabu_planner.py:57-60 | Replaying any actions keeps a valid world valid with its drone, and keeps a held block held with every other block in place. |
| TabuPlanner.NewPlanner | drone_world/planner/low_level/tabu_planner.py:17-40 | The planner exists exactly when the target is in bounds, the memory limit is non-negative and the world has a drone; out-of-bounds goals and negative limits are ValueErrors, a missing drone an AttributeError. |
| TabuPlanner.RunPlanner | drone_world/planner/low_level/tabu_planner.py:42-60 | With the replay reading each action as (x, y, z): PathNotFound exactly when the search gives up, success exactly when it finds a node, and then the drone stands on the target with the world valid and a held block still held. |
| TabuPlanner.RunPlannerAsWritten | drone_world/planner/low_level/tabu_planner.py:42-60 | The replay as written: PathNotFound exactly when the search gives up; a world whose drone is already on the target is returned unchanged. |
| TabuPlanner.RightSearch | drone_world/planner/low_level/tabu_planner.py:37-38 | Sent to the free cell on its +x side, the search finds the single action (1, 0, 0). |
| TabuPlanner.AsWrittenMissesTarget | drone_world/planner/low_level/tabu_planner.py:57-60 | For that target the as-written replay moves by (0, 0, 0), which fails, and the run ends with the drone off the target. |
| TabuPlanner.SwappedRightStays | drone_world/planner/low_level/tabu_planner.py:59-60 | The single action +x replayed as (z, y, z) leaves the world unchanged. |
| TabuPlanner.CorrectedReachesTarget | drone_world/planner/low_level/tabu_planner.py:42-60 | With the corrected replay the same run ends with the drone on the target. |
| TabuPlanner.LoneDroneMisses | drone_world/planner/low_level/tabu_planner.py:57-60 | A drone alone in its world, sent one cell along +x by a planner with memory 100 and no cap, stays where it is. |
| PopulationSearch.FilterOutDrone | drone_world/planner/high_level/population_search/population_search.py:11-22 | Exactly the entries whose label does not mention "black" in any case survive, in their original order. |
| PopulationSearch.FilterOutDroneState | drone_world/planner/high_level/population_search/population_search.py:11-22 | The drone's own entry in a world's state is always filtered out. |
| PopulationSearch.SortDescendingAsWritten | drone_world/planner/high_level/population_search/population_search.py:36-46 | As written, the descending sort only reverses the input order. |
| PopulationSearch.SortAsWrittenUnsorted | drone_world/planner/high_level/population_search/population_search.py:24-34 | As written, the ascending sort leaves two out-of-order entries out of order. |
| PopulationSearch.SortAscending | drone_world/planner/high_level/population_search/population_search.py:24-34 | The intended sort is a permutation of the goal in ascending height order. |
| PopulationSearch.SortDescending | drone_world/planner/high_level/population_search/population_search.py:36-46 | The intended descending sort is a permutation of the goal in non-increasing height order. |
| PopulationSearch.ReverseDescends | drone_world/planner/high_level/population_search/population_search.py:44-46 | Reversing an ascending goal gives a descending one. |
| PopulationSearch.FillColumn | drone_world/planner/high_level/population_search/population_search.py:66-73 | For one column, every cell below the goal cell down to the ground ends up listed; each added cell is new, lies in that column below the goal cell, and appears once. |
| PopulationSearch.FillAll | drone_world/planner/high_level/population_search/population_search.py:64-73 | Over all columns, every cell under every goal cell is listed; each added cell is new, lies under some goal cell, and appears once. |
| PopulationSearch.FillAllUnder | drone_world/planner/high_level/population_search/population_search.py:64-73 | The cells added by the first column and by the later ones all lie under some goal cell. |
| PopulationSearch.FillAllCovers | drone_world/planner/high_level/population_search/population_search.py:64-73 | Filling the first column and then the rest covers every column down to the ground. |
| PopulationSearch.GroundedMono | drone_world/planner/high_level/population_search/population_search.py:48-75 | Being grounded survives dropping goal entries and listing more cells. |
| PopulationSearch.Completion | drone_world/planner/high_level/population_search/population_search.py:56-73 | The completion starts with the goal itself; every appended entry is a "?" filler at a fresh cell under some goal cell, no appended cell repeats, and every cell under a goal cell is listed. |
| PopulationSearch.FillGoalAsWritten | drone_world/planner/high_level/population_search/population_search.py:48-75 | As written, the filled goal keeps the goal's entries first, in their given order, and is grounded. |
| PopulationSearch.FillGoalAsWrittenUnsorted | drone_world/planner/high_level/population_search/population_search.py:48-75 | As written, one raised goal block is followed by the filler under it, so the result is not in height order. |
| PopulationSearch.SortedCompletion | drone_world/planner/high_level/population_search/population_search.py:48-75 | Sorting, completing and sorting again keeps every goal entry and grounds the goal. |
| PopulationSearch.FillGoal | drone_world/planner/high_level/population_search/population_search.py:48-75 | The corrected filled goal is sorted bottom-up, is grounded, holds every goal entry, and is a permutation of the completed goal. |
| PopulationSearch.Find | drone_world/planner/high_level/population_search/population_search.py:101 | A label is found exactly when some pool carries it, and the index found carries it. |
| PopulationSearch.Push | drone_world/planner/high_level/population_search/population_search.py:101-103 | Appending a block adds it to its label's pool and creates that pool on first use. |
| PopulationSearch.PushMembers | drone_world/planner/high_level/population_search/population_search.py:101-103 | Pushing adds exactly the pushed block, and keeps the pools well formed when the block carries the label and is new. |
| PopulationSearch.OrganizeContents | drone_world/planner/high_level/population_search/population_search.py:96-103 | Each pool holds exactly the input blocks carrying its label, in input order, and every label has a pool. |
| PopulationSearch.OrganizeOk | drone_world/planner/high_level/population_search/population_search.py:96-103 | Distinct input blocks give well-formed pools. |
| PopulationSearch.OrganizeMembers | drone_world/planner/high_level/population_search/population_search.py:96-103 | The pools hold exactly the input blocks. |
| PopulationSearch.Pop | drone_world/planner/high_level/population_search/population_search.py:126 | Popping removes the last block of one pool and leaves the other pools and every label alone. |
| PopulationSearch.PopMembers | drone_world/planner/high_level/population_search/population_search.py:126 | Popping removes exactly the popped block and keeps the pools well formed. |
| PopulationSearch.PopSizes | drone_world/planner/high_level/population_search/population_search.py:126 | Popping takes one block off the total and off its label's count, and leaves other labels' counts alone. |
| PopulationSearch.PushSizes | drone_world/planner/high_level/population_search/population_search.py:127-129 | Pushing adds one block to its label's count and leaves other labels' counts alone. |
| PopulationSearch.Reserve | drone_world/planner/high_level/population_search/population_search.py:114-129 | The first loop fails only with KeyError or RuntimeError. |
| PopulationSearch.DemandZero | drone_world/planner/high_level/population_search/population_search.py:117-121 | A label has no demand exactly when no non-filler goal entry asks for it. |
| PopulationSearch.EnoughStep | drone_world/planner/high_level/population_search/population_search.py:117-129 | After setting aside a block for the first goal entry, the pools are enough for the rest exactly when they were enough for the whole goal. |
| PopulationSearch.ReserveEnough | drone_world/planner/high_level/population_search/population_search.py:114-129 | The first loop succeeds exactly when every label asked for has a pool holding at least as many blocks as it is asked for. |
| PopulationSearch.ReserveSplit | drone_world/planner/high_level/population_search/population_search.py:114-129 | The first loop only moves blocks: the working and set-aside sides stay well formed and disjoint, and together hold the same blocks. |
| PopulationSearch.ReserveSizes | drone_world/planner/high_level/population_search/population_search.py:114-129 | Each label has exactly its demand set aside, and the working pools lose one block per non-filler entry. |
| PopulationSearch.ReserveKeyError | drone_world/planner/high_level/population_search/population_search.py:123 | A KeyError only arises for a label the goal asks for that has no pool. |
| PopulationSearch.FirstNonEmpty | drone_world/planner/high_level/population_search/population_search.py:142-149 | The pool chosen for a filler is the first one, in the model's fixed pool order, that still holds a block; none is chosen exactly when all are empty. |
| PopulationSearch.TotalZero | drone_world/planner/high_level/population_search/population_search.py:142-149 | The pools hold no blocks in all exactly when each pool is empty. |
| PopulationSearch.Build | drone_world/planner/high_level/population_search/population_search.py:131-156 | The second loop builds exactly one block per goal slot. |
| PopulationSearch.PopSplit | drone_world/planner/high_level/population_search/population_search.py:146-151 | Taking the last block of either side keeps the sides disjoint and removes exactly that block. |
| PopulationSearch.ConsSolution | drone_world/planner/high_level/population_search/population_search.py:131-156 | Putting a block taken from the sides in front of a solution of the rest gives a solution of the whole goal. |
| PopulationSearch.BuildSolution | drone_world/planner/high_level/population_search/population_search.py:131-156 | The second loop's solution uses distinct blocks from the two sides, with the label each non-filler slot asks for. |
| PopulationSearch.BuildErrors | drone_world/planner/high_level/population_search/population_search.py:131-156 | With the demand set aside, the second loop fails only with RuntimeError or for want of draws. A RuntimeError means there are fewer working blocks than fillers, and too few working blocks always fail. |
| PopulationSearch.ShuffleAll | drone_world/planner/high_level/population_search/population_search.py:110-112 | Shuffling keeps every label in place and permutes each pool. |
| PopulationSearch.SamePoolsTrans | drone_world/planner/high_level/population_search/population_search.py:110-112 | Two shuffles in a row still permute each pool. |
| PopulationSearch.SamePoolsSym | drone_world/planner/high_level/population_search/population_search.py:110-112 | Permuting pools is symmetric. |
| PopulationSearch.SamePoolsOk | drone_world/planner/high_level/population_search/population_search.py:110-112 | Shuffled pools are well formed when the originals were, and hold the same blocks. |
| PopulationSearch.GenerateRandomSolution | drone_world/planner/high_level/population_search/population_search.py:105-156 | The pools left behind are a per-pool permutation of the pools before. |
| PopulationSearch.GenerateAssignment | drone_world/planner/high_level/population_search/population_search.py:105-156 | A drawn solution assigns distinct blocks of the pools to the goal slots, each of its slot's label unless the slot is a filler. |
| PopulationSearch.GenerateErrors | drone_world/planner/high_level/population_search/population_search.py:105-156 | Apart from running out of draws, drawing fails exactly when the pools cannot serve the goal. A KeyError names a goal label without a pool. |
| PopulationSearch.EvaluateFitness | drone_world/planner/high_level/population_search/population_search.py:167-172 | A solution of a different length from the goal is a RuntimeError, and only such a solution is. |
| PopulationSearch.FitnessZero | drone_world/planner/high_level/population_search/population_search.py:158-181 | Under a metric the fitness is never negative, and it is zero exactly when every block already sits on its slot. |
| PopulationSearch.FitnessSplit | drone_world/planner/high_level/population_search/population_search.py:174-181 | The fitness adds up over consecutive stretches of the goal. |
| PopulationSearch.GetActions | drone_world/planner/high_level/population_search/population_search.py:187-204 | No best solution is a TypeError; a length mismatch is an error; otherwise there is one trip per slot, from the cell above the chosen block to the cell above its slot. |
| PopulationSearch.PopulationInit | drone_world/planner/high_level/population_search/population_search.py:77-94 | The corrected constructor, whose goal is sorted: non-world or non-list arguments are a TypeError, and only they are. On success the drone is filtered out, the goal is filled bottom-up and grounded, and the pools organise the raw blocks. |
| PopulationSearch.PopulationInitAsWritten | drone_world/planner/high_level/population_search/population_search.py:77-94 | As written, the same TypeErrors, the same raw blocks and pools, and a goal that keeps the given entries first, in their given order, grounded by fillers after them. |
| PopulationSearch.PopulationInitAsWrittenUnsorted | drone_world/planner/high_level/population_search/population_search.py:48-94 | For one raised goal block the constructor as written holds a goal that is not bottom-up, where the corrected one is sorted. |
| PopulationSearch.ReplaceKeeps | drone_world/planner/high_level/population_search/population_search.py:105-156 | Swapping one solution block for an unused pool block of the slot's label keeps it a solution. |
| PopulationSearch.AssignmentSamePools | drone_world/planner/high_level/population_search/population_search.py:110-112 | A solution stays a solution over pools that hold the same blocks. |
| CrowSearch.NewCrowAsWritten | drone_world/planner/high_level/population_search/crow_search.py:6-14 | As written, a block list in first position reaches the world check, so the constructor is a TypeError. |
| CrowSearch.NewCrow | drone_world/planner/high_level/population_search/crow_search.py:6-14 | The corrected constructor succeeds exactly for a world and two lists. It keeps the world and fills the goal bottom-up and grounded. The pools hold exactly the non-drone blocks. |
| CrowSearch.AllAssignedSnoc | drone_world/planner/high_level/population_search/crow_search.py:17-21 | Appending a solution to a flock of solutions keeps it a flock of solutions. |
| CrowSearch.AllAssignedUpdate | drone_world/planner/high_level/population_search/crow_search.py:30-72 | Replacing one crow's solution by a solution keeps the flock a flock of solutions. |
| CrowSearch.AllAssignedSamePools | drone_world/planner/high_level/population_search/crow_search.py:72 | Solutions stay solutions after the pools are reshuffled. |
| CrowSearch.InitCrows | drone_world/planner/high_level/population_search/crow_search.py:17-21 | The flock has `n` crows, each position equal to its memory; the pools are only permuted; from well-formed pools every crow holds a solution. |
| CrowSearch.ShortCount | drone_world/planner/high_level/population_search/crow_search.py:37-38 | A short flight replaces at most as many slots as the goal has. |
| CrowSearch.LongCount | drone_world/planner/high_level/population_search/crow_search.py:47-50 | A long flight replaces at least one slot, and never more than a non-empty goal has. |
| CrowSearch.LocalFlight | drone_world/planner/high_level/population_search/crow_search.py:39-45 | Each slot keeps its block or takes the target's block at that slot; unsampled slots are untouched. It succeeds whenever both solutions are as long as each other and every index is in range; otherwise the only error is IndexError. |
| CrowSearch.LocalFlightNoDup | drone_world/planner/high_level/population_search/crow_search.py:42-45 | A duplicate-free position stays duplicate-free after the short flight. |
| CrowSearch.LocalFlightKeeps | drone_world/planner/high_level/population_search/crow_search.py:39-45 | The short flight keeps a position a solution of the goal. |
| CrowSearch.Retry | drone_world/planner/high_level/population_search/crow_search.py:57-68 | Zero tries leave the position alone. Otherwise only slot `j` changes, to a block of the pool the position did not hold. When the position already holds the whole pool, nothing changes. |
| CrowSearch.GlobalFlight | drone_world/planner/high_level/population_search/crow_search.py:53-68 | Unsampled slots are untouched, and the length is kept. The only errors are IndexError, KeyError and running out of draws. |
| CrowSearch.GlobalFlightKeeps | drone_world/planner/high_level/population_search/crow_search.py:53-68 | The long flight keeps a position a solution: each new block comes from the pool of the label its slot held. |
| CrowSearch.ShortMove | drone_world/planner/high_level/population_search/crow_search.py:37-45 | A short flight keeps the position's length. |
| CrowSearch.LongMove | drone_world/planner/high_level/population_search/crow_search.py:47-68 | A long flight keeps the target's length. |
| CrowSearch.FollowKeeps | drone_world/planner/high_level/population_search/crow_search.py:32-68 | Following a memory keeps a position a solution. |
| CrowSearch.MoveCrow | drone_world/planner/high_level/population_search/crow_search.py:30-72 | A move changes only crow `i`'s position, leaves every memory alone and only permutes the pools. |
| CrowSearch.MoveCrowAirborne | drone_world/planner/high_level/population_search/crow_search.py:30-72 | After a move every position and memory is still a solution. |
| CrowSearch.MoveFrom | drone_world/planner/high_level/population_search/crow_search.py:30-72 | Moving all crows in turn keeps the memories and the flock size, only permutes the pools, and keeps every crow holding a solution. |
| CrowSearch.Remember | drone_world/planner/high_level/population_search/crow_search.py:75-77 | A RuntimeError means some solution has the wrong length, and only that. Each memory keeps its value or takes the position, and never gets worse. It takes a different position exactly when that position is strictly fitter. |
| CrowSearch.Iterate | drone_world/planner/high_level/population_search/crow_search.py:28-77 | The iterations keep the flock size, only permute the pools, and keep every crow holding a solution. No memory's fitness gets worse. |
| CrowSearch.Scan | drone_world/planner/high_level/population_search/crow_search.py:81-84 | The scan returns the candidate or a later memory, and it is at least as fit as the candidate and every memory scanned. |
| CrowSearch.SelectBest | drone_world/planner/high_level/population_search/crow_search.py:79-84 | No memory is an IndexError and a wrongly sized memory a RuntimeError. The result is one of the memories, at least as fit as every memory. |
| CrowSearch.Run | drone_world/planner/high_level/population_search/crow_search.py:24-88 | The result is one of the flock's memories with its fitness, at least as fit as every memory. From well-formed pools it and every memory are solutions of the goal. |
| CrowSearch.Flight | drone_world/planner/high_level/population_search/crow_search.py:24-77 | The flight leaves one memory per crow, each a solution of the goal when the pools are well formed. |
| CsaPlanner.NewCsaPlanner | drone_world/planner/high_level/csa_planner.py:17-28 | The planner accepts exactly a world and keeps it; anything else is a TypeError. |
| CsaPlanner.BlockGoals | drone_world/planner/high_level/csa_planner.py:75-79 | Exactly the rows whose label does not mention "drone" in any case become goal entries, with label and coordinates swapped into entry order. |
| CsaPlanner.StateNoDup | drone_world/planner/high_level/csa_planner.py:82 | The state of a sound world with a drone lists no entry twice, so the crow search gets distinct blocks. |
| CsaPlanner.ParseObjectsAsWritten | drone_world/planner/high_level/csa_planner.py:49-87 | As written, no drone is an AttributeError from reading the state, and a drone leads to the TypeError of the crow search's argument order. |
| CsaPlanner.ParseObjects | drone_world/planner/high_level/csa_planner.py:49-87 | With the corrected argument order, no drone is an AttributeError. On success the state is the world's, and the goal is filled bottom-up, grounded and holds every block goal. There is one pick-up/drop-off objective per slot. In a sound world the chosen blocks are distinct non-drone state entries of the slot's label. |
| CsaPlanner.Choose | drone_world/planner/high_level/csa_planner.py:82-85 | Over the corrected crow search constructor: the objectives come from the search's best solution over the state. From a duplicate-free state the chosen blocks are distinct entries of the right labels. |
| CsaPlanner.TripsOf | drone_world/planner/high_level/csa_planner.py:85 | Trips that lead from each chosen block to its slot give one pick-up and drop-off objective per slot. |
| CsaPlanner.Objectives | drone_world/planner/high_level/csa_planner.py:85 | Each trip becomes an objective with both an attach and a release cell. |
| CsaPlanner.Fly | drone_world/planner/high_level/csa_planner.py:103-105 | Over the corrected replay of the tabu planner: an out-of-bounds target is a ValueError, and no drone an AttributeError. On success the drone is at the target and the world stays valid. A drone carrying nothing leaves the blocks alone, and a carried block comes along. A drone already there changes nothing. |
| CsaPlanner.RunObjective | drone_world/planner/high_level/csa_planner.py:90-114 | Over the corrected flight: no attach cell is a RuntimeError. A move-only objective leaves the drone at the attach cell. An attach/release objective starts unattached and delivers the block under the attach cell to the release column. The block count never changes. |
| CsaPlanner.Carry | drone_world/planner/high_level/csa_planner.py:108-114 | Over the corrected flight: carrying while already attached is a RuntimeError. Otherwise the block below the drone is delivered to the target's column and the world stays valid. |
| CsaPlanner.Next | drone_world/planner/high_level/csa_planner.py:128-132 | Over the corrected flight: one objective keeps the world valid and the block count. A releasing objective starts and ends with nothing attached. |
| CsaPlanner.RunAll | drone_world/planner/high_level/csa_planner.py:126-132 | Over the corrected flight: no objectives leave the world unchanged. A run that gets through met no objective without an attach cell, kept the block count, and ends unattached when the last objective releases. |
| CsaPlanner.AttachingEach | drone_world/planner/high_level/csa_planner.py:127-132 | The recursive "every objective from k on has an attach cell" agrees with its quantified form. |
| CsaPlanner.RunFrom | drone_world/planner/high_level/csa_planner.py:127-132 | Over the corrected flight: running from objective k keeps the world valid and the block count, and requires an attach cell in every remaining objective. |
| CsaPlanner.RunFromEndsFree | drone_world/planner/high_level/csa_planner.py:131-132 | Over the corrected flight: when the last objective releases, a run that gets through ends with the drone holding nothing. |
| CsaPlanner.Plan | drone_world/planner/high_level/csa_planner.py:116-135 | The corrected `run`, with the crow search built as intended: no drone is an AttributeError. A successful run keeps the world valid and the block count. With at least one block goal it starts and ends with nothing attached. |
| CsaPlanner.PlanAsWritten | drone_world/planner/high_level/csa_planner.py:116-135 | As written, `run` never moves the drone: no drone is an AttributeError, and any world with a drone is the TypeError of the crow search's argument order, whatever the objectives file holds. |
| NewerCuckoo.NewNest | drone_world/population_search/cuckoo.py:8-54 | A new nest holds distinct world blocks, one per goal slot and of the slot's colour, and stores its own fitness. It can only fail by looping forever, indexing an empty pool, or running out of draws. |
| NewerCuckoo.StepIndex | drone_world/population_search/cuckoo.py:159-161 | An empty pool is a ZeroDivisionError, and only an empty pool is. Otherwise the index is within the pool, and a drawn index already inside the pool is kept. |
| NewerCuckoo.Steps | drone_world/population_search/cuckoo.py:156-177 | A ZeroDivisionError only arises when some slot's colour pool is empty. The only other failure is running out of draws. |
| NewerCuckoo.StepsShaped | drone_world/population_search/cuckoo.py:156-177 | A solution of the goal's shape keeps its shape under the steps: every slot takes a world block of its own colour. |
| NewerCuckoo.LevyFlightAsWritten | drone_world/population_search/cuckoo.py:152-180 | As written, the flown nest keeps its parent's stored fitness. |
| NewerCuckoo.LevyFlight | drone_world/population_search/cuckoo.py:152-180 | As intended, the flown nest stores its own solution's fitness. A shaped solution stays shaped, and fails only for want of draws. |
| NewerCuckoo.StepsSingle | drone_world/population_search/cuckoo.py:156-177 | A one-slot flight takes the block at the drawn index of the slot's pool. |
| NewerCuckoo.OneSlotFlights | drone_world/population_search/cuckoo.py:152-180 | With one slot both flights take the pool block at the drawn index. As written the nest keeps its old fitness; as intended it takes the new block's. |
| NewerCuckoo.WitnessPools | drone_world/population_search/cuckoo.py:56-66 | Both red blocks of the witness world are filed into the red pool. |
| NewerCuckoo.WitnessFitness | drone_world/population_search/cuckoo.py:76-90 | With squared distances the two witness blocks score 3.0 and 51.0. |
| NewerCuckoo.StaleFitness | drone_world/population_search/cuckoo.py:152-180 | For a concrete nest, the as-written flight moves to the far block but keeps fitness 3.0, which is not its solution's. The intended flight stores 51.0. |
| NewerCuckoo.KeepBest | drone_world/population_search/cuckoo.py:195-199 | Too few nests are an IndexError, and only then. Otherwise the set-aside list grows by `keep` copies of the first nests and is sorted by fitness. |
| NewerCuckoo.ReplaceWorst | drone_world/population_search/cuckoo.py:205-210 | Too few nests or set-aside nests are an IndexError, and only then. Otherwise the last `keep` nests are replaced by the first `keep` set-aside ones and the others are untouched. |
| NewerCuckoo.Select | drone_world/population_search/cuckoo.py:214-219 | A nest is selected exactly when the draw reduced to `[0, NP - 1]` equals its index, and one draw is used. |
| NewerCuckoo.Lay | drone_world/population_search/cuckoo.py:237-244 | Laying eggs keeps the number of nests. |
| NewerCuckoo.LayAsWrittenStill | drone_world/population_search/cuckoo.py:237-244 | As written, the egg-laying loop never changes the nests, because a flown nest carries its parent's fitness. |
| NewerCuckoo.MoveToEndSound | drone_world/population_search/cuckoo.py:243-244 | Moving a sound nest to the end in place of nest `i` keeps every nest sound. |
| NewerCuckoo.LayKeepsSound | drone_world/population_search/cuckoo.py:237-244 | As intended, laying keeps every nest shaped and storing its own fitness. |
| NewerCuckoo.SortSound | drone_world/population_search/cuckoo.py:191-192 | Sorting sound nests keeps them sound. |
| NewerCuckoo.KeepBestSound | drone_world/population_search/cuckoo.py:195-199 | Setting aside copies of sound nests keeps the set-aside list sound. |
| NewerCuckoo.Generation | drone_world/population_search/cuckoo.py:234-254 | A generation keeps the number of nests and grows the set-aside list by `keep`. The best nest never gets worse, and changes only to a strictly fitter nest of the flock. |
| NewerCuckoo.GenerationSound | drone_world/population_search/cuckoo.py:234-254 | As intended, a generation keeps every nest, every set-aside nest and the best nest sound. |
| NewerCuckoo.InitNests | drone_world/population_search/cuckoo.py:184-189 | Initialising appends `n` nests, sound when the others are. |
| NewerCuckoo.Generations | drone_world/population_search/cuckoo.py:234-254 | The generations keep the number of nests, and the best fitness never gets worse. |
| NewerCuckoo.GenerationsSound | drone_world/population_search/cuckoo.py:234-254 | As intended, the flock stays sound through every generation. |
| NewerCuckoo.Run | drone_world/population_search/cuckoo.py:227-256 | The returned score is the returned nest's stored fitness. |
| NewerCuckoo.RunSound | drone_world/population_search/cuckoo.py:94-256 | As intended, the answer is a sound nest, no worse than the first nest the constructor drew. |
| PopulationAlgorithm.PoolOf | src/drone_world/population_search/population_algorithm.py:23-26 | Every colour has a pool and only the drone's id has none. |
| PopulationAlgorithm.FileAt | src/drone_world/population_search/population_algorithm.py:33-42 | Filing a block extends its colour's pool by that block and leaves the other pools alone. |
| PopulationAlgorithm.OrganizeFiltersAt | src/drone_world/population_search/population_algorithm.py:30-42 | Each colour's pool holds exactly the blocks of that colour, in input order. |
| PopulationAlgorithm.OrganizeFilters | src/drone_world/population_search/population_algorithm.py:30-42 | Every colour's pool holds exactly the blocks of that colour, in input order. |
| PopulationAlgorithm.OrganizedMembers | src/drone_world/population_search/population_algorithm.py:30-42 | A block is in a colour's pool exactly when it is one of the blocks and has that colour. |
| PopulationAlgorithm.Pick | src/drone_world/population_search/population_algorithm.py:51-79 | An empty pool is an IndexError, and only an empty pool is. A pick is a pool block the solution does not hold yet, and uses at least one draw. |
| PopulationAlgorithm.PickStuck | src/drone_world/population_search/population_algorithm.py:51-79 | When the solution already holds every block of a non-empty pool, the loop never ends: it runs out of draws whatever their number. |
| PopulationAlgorithm.FillSolves | src/drone_world/population_search/population_algorithm.py:47-80 | Filling extends a partial solution to a solution of the goal. A drone entry means a loop that never ends, an IndexError means a later slot's pool is empty, and otherwise only the draws run out. |
| PopulationAlgorithm.RandomSolution | src/drone_world/population_search/population_algorithm.py:44-80 | A random solution holds distinct blocks, one from each slot's colour pool. It diverges only on a drone goal entry, and indexes out of range only on an empty pool. |
| PopulationAlgorithm.SolvesFits | src/drone_world/population_search/population_algorithm.py:44-80 | Over the organised pools, being a solution is exactly holding distinct world blocks of each slot's colour. |
| PopulationAlgorithm.FillReaches | src/drone_world/population_search/population_algorithm.py:47-80 | Every solution extending a partial one is reached by some draws. |
| PopulationAlgorithm.RandomSolutionReaches | src/drone_world/population_search/population_algorithm.py:44-80 | Every solution of the goal over the blocks is drawn by some sequence of draws, which it uses up exactly. |
| PopulationAlgorithm.SameIdsDemand | src/drone_world/population_search/population_algorithm.py:44-80 | A solution with each slot's colour holds as many blocks of a colour as the goal asks for. |
| PopulationAlgorithm.RandomSolutionNeedsEnough | src/drone_world/population_search/population_algorithm.py:44-80 | Drawing ends only if each colour has at least as many blocks as the goal asks for. |
| PopulationAlgorithm.ColumnFitnessSingle | src/drone_world/population_search/population_algorithm.py:91-105 | A one-slot solution costs the two legs from the drone's column to its block. |
| PopulationAlgorithm.ColumnFitnessSplit | src/drone_world/population_search/population_algorithm.py:98-105 | The fitness splits at any slot into the prefix's fitness plus the remaining legs. |
| PopulationAlgorithm.ColumnFitnessPositive | src/drone_world/population_search/population_algorithm.py:91-105 | Under a metric the fitness is never negative, and a non-empty solution costs something. |
| PopulationAlgorithm.RandomSolutions | src/drone_world/population_search/crow.py:76-80 | Drawing `n` more solutions keeps the earlier ones and appends `n` solutions of the goal. |
| LegacyCrow.NewCrowSearch | src/drone_world/population_search/crow.py:9-23 | The constructor keeps the drone position, blocks and goal. Until `run` files the blocks, every pool is empty, so drawing a solution for a goal that starts with a colour is an IndexError. |
| LegacyCrow.CrowFitness | src/drone_world/population_search/crow.py:90-107 | An empty solution is an IndexError at its first element, and only an empty one is. |
| LegacyCrow.PairsSpokes | src/drone_world/population_search/crow.py:99-106 | With a symmetric distance the pair legs plus the two end legs count each block's distance to the drone twice. |
| LegacyCrow.CrowFitnessSpokes | src/drone_world/population_search/crow.py:90-107 | With a symmetric distance the fitness is twice the sum of the distances from the drone to every block, whatever the order. |
| LegacyCrow.GlobalFlight | src/drone_world/population_search/crow.py:143-167 | The long flight keeps the position's length. |
| LegacyCrow.GlobalFlightReturns | src/drone_world/population_search/crow.py:143-167 | From a duplicate-free target, the long flight always puts the target's block back in each sampled slot, so it ends on the target itself. |
| LegacyCrow.LocalFlightSolves | src/drone_world/population_search/crow.py:124-132 | A short flight between solutions yields a solution. |
| LegacyCrow.MoveCrowSolves | src/drone_world/population_search/crow.py:117-171 | A crow's move keeps its position a solution. |
| LegacyCrow.MoveAll | src/drone_world/population_search/crow.py:117-171 | Moving every crow keeps the number of positions. |
| LegacyCrow.MoveAllSolves | src/drone_world/population_search/crow.py:117-171 | Moving every crow keeps every position a solution. |
| LegacyCrow.Update | src/drone_world/population_search/crow.py:174-176 | Each memory keeps its value or takes its crow's position, and only when that position is strictly fitter. Every strictly fitter position is taken, and a successful update has scored every crow and memory. |
| LegacyCrow.Best | src/drone_world/population_search/crow.py:179-183 | The pick is the candidate or a later memory, is non-empty, and is at least as fit as the candidate and every memory scanned. |
| LegacyCrow.Iterate | src/drone_world/population_search/crow.py:115-176 | The iterations keep the swarm's size. Each memory ends as it was or strictly fitter. |
| LegacyCrow.IterateSolves | src/drone_world/population_search/crow.py:115-176 | The iterations keep every position and memory a solution. |
| LegacyCrow.Search | src/drone_world/population_search/crow.py:110-176 | The search leaves one memory per crow. |
| LegacyCrow.Run | src/drone_world/population_search/crow.py:110-187 | The answer is non-empty and its score is its fitness. |
| LegacyCrow.RunMinimal | src/drone_world/population_search/crow.py:178-187 | The answer is one of the final memories, and no final memory is strictly fitter. |
| LegacyCrow.RunFits | src/drone_world/population_search/crow.py:110-187 | The answer assigns a distinct block of the slot's colour to every goal slot. |
| DiscreteCuckoo.MatesShorter | src/drone_world/population_search/DSC.py:45-49 | A block is never among its own mates, so the mate list is shorter than the solution. |
| DiscreteCuckoo.TwoOptAsWritten | src/drone_world/population_search/DSC.py:39-55 | As written, an empty solution is a ValueError from `randint(0, -1)`. A solution where no colour repeats draws forever. A move only permutes the solution. |
| DiscreteCuckoo.RedGreenRedMates | src/drone_world/population_search/DSC.py:45-49 | In red, green, red the third slot has exactly one mate, the first red block. |
| DiscreteCuckoo.TwoOptRecolours | src/drone_world/population_search/DSC.py:53 | As written, the draws 2 then 1 swap the green block into a red slot, because the partner index is a slot of the solution and not a mate. |
| DiscreteCuckoo.TwoOptAsWrittenSwaps | src/drone_world/population_search/DSC.py:43-54 | As written, the draws `i` then `j` swap slot `i` with slot `j`, for any `j` up to the number of mates inclusive. |
| DiscreteCuckoo.TwoOptBreaksFit | src/drone_world/population_search/DSC.py:39-55 | The goal red, green, red is met by its own blocks, and is no longer met after the as-written move recolours the middle slot. |
| DiscreteCuckoo.TwoOpt | src/drone_world/population_search/DSC.py:39-55 | As intended, an empty solution is a ValueError, and one where no colour repeats draws forever. A move permutes blocks only among slots of one colour and always changes the solution. |
| DiscreteCuckoo.SameSlotsFits | src/drone_world/population_search/DSC.py:39-55 | Permuting blocks among slots of one colour keeps a solution a solution. |
| DiscreteCuckoo.Discarded | src/drone_world/population_search/DSC.py:60-61 | The four discarded two-opt calls fail with ValueError on an empty solution. |
| DiscreteCuckoo.DoubleBridgeAsWritten | src/drone_world/population_search/DSC.py:58-62 | As written, the double bridge returns its input unchanged, and an empty solution is a ValueError. |
| DiscreteCuckoo.Moves | src/drone_world/population_search/DSC.py:60-61 | Chained two-opt moves permute blocks only among slots of one colour. |
| DiscreteCuckoo.DoubleBridge | src/drone_world/population_search/DSC.py:58-62 | As intended, the double bridge permutes blocks only among slots of one colour, and an empty solution is a ValueError. |
| DiscreteCuckoo.EggsAsWritten | src/drone_world/population_search/DSC.py:74-82 | As written, the egg loop leaves the nests unchanged, because the egg replaces only a local variable. |
| DiscreteCuckoo.Step | src/drone_world/population_search/DSC.py:76-79 | Either step keeps every slot's colour, and an empty solution is a ValueError. |
| DiscreteCuckoo.Place | src/drone_world/population_search/DSC.py:80-82 | Placing an egg keeps the number of nests. A nest changes only to the egg, and only when the egg is strictly fitter. |
| DiscreteCuckoo.Eggs | src/drone_world/population_search/DSC.py:74-82 | As intended, each nest stays or is replaced by a strictly fitter solution, and the number of nests is kept. |
| DiscreteCuckoo.EggsUnfold | src/drone_world/population_search/DSC.py:74-82 | One pass of the egg loop keeps every nest a solution of the goal. |
| DiscreteCuckoo.EggsFit | src/drone_world/population_search/DSC.py:74-82 | The egg loop keeps every nest a solution of the goal. |
| DiscreteCuckoo.Refresh | src/drone_world/population_search/DSC.py:86-92 | With the corrected two-opt move: nests before `j` are untouched. Middle nests make a two-opt move that changes them within their colours. The last `pa` nests become fresh random solutions. |
| DiscreteCuckoo.RefreshAsWritten | src/drone_world/population_search/DSC.py:86-92 | As written: nests before `j` are untouched, middle nests are only permuted by the as-written two-opt move, and the last `pa` nests become fresh random solutions. |
| DiscreteCuckoo.RefreshAsWrittenBreaksFit | src/drone_world/population_search/DSC.py:86-92 | As written, a middle nest red, green, red that solves the goal red, green, red no longer solves it after the loops draw 2 and 1 for it. |
| DiscreteCuckoo.Generation | src/drone_world/population_search/DSC.py:71-94 | A generation, as written or with the corrected moves and egg loop, keeps the number of nests and leaves them sorted by fitness. |
| DiscreteCuckoo.SortFit | src/drone_world/population_search/DSC.py:84 | Sorting keeps every nest a solution. |
| DiscreteCuckoo.RefreshFit | src/drone_world/population_search/DSC.py:86-92 | The corrected refresh loops keep every nest a solution. |
| DiscreteCuckoo.GenerationFit | src/drone_world/population_search/DSC.py:71-94 | A corrected generation keeps every nest a solution of the goal. |
| DiscreteCuckoo.Generations | src/drone_world/population_search/DSC.py:71-94 | The generations, as written or corrected, keep the number of nests and leave them sorted. |
| DiscreteCuckoo.GenerationsFit | src/drone_world/population_search/DSC.py:71-94 | The corrected generations keep every nest a solution. |
| DiscreteCuckoo.Search | src/drone_world/population_search/DSC.py:65-94 | The search, as written or corrected, leaves `population` nests sorted by fitness. |
| DiscreteCuckoo.Run | src/drone_world/population_search/DSC.py:96-98 | The run, as written or corrected, succeeds exactly when its search does, and its score is its answer's fitness. |
| DiscreteCuckoo.FirstFittest | src/drone_world/population_search/DSC.py:94-98 | The first of the nests sorted by fitness is no less fit than any other. |
| DiscreteCuckoo.RunMinimal | src/drone_world/population_search/DSC.py:94-98 | As written or corrected, the answer is one of the final nests, and no final nest is fitter. |
| DiscreteCuckoo.SearchFit | src/drone_world/population_search/DSC.py:65-94 | With the corrected moves, every final nest assigns a distinct block of the slot's colour to every goal slot. |
| DiscreteCuckoo.RunFits | src/drone_world/population_search/DSC.py:96-98 | With the corrected moves, the answer assigns a distinct block of the slot's colour to every goal slot. |
| LegacyCuckoo.New | src/drone_world/population_search/cuckoo.py:7-24 | Anything but a node is a ValueError, and only that. Otherwise the node is both the best node and the candidate, with no nests and nothing kept. |
| LegacyCuckoo.InitializeNests | src/drone_world/population_search/cuckoo.py:26-30 | Laying succeeds exactly when nothing is laid, or when there are locations and enough draws; no locations is a ValueError. It keeps the earlier nests and appends `k` of the locations. |
| LegacyCuckoo.InitializeFirst | src/drone_world/population_search/cuckoo.py:27-30 | One draw appends the location it indexes and leaves the rest of the loop to the remaining draws. |
| LegacyCuckoo.InitializeReaches | src/drone_world/population_search/cuckoo.py:26-30 | Any choice of locations, repeats allowed, is laid by some draws. |
| LegacyCuckoo.SortedPrefix | src/drone_world/population_search/cuckoo.py:38-40 | A prefix of a sorted arrangement of a pool is sorted, drawn from the pool, and no worse than any entry left out. |
| LegacyCuckoo.KeepBest | src/drone_world/population_search/cuckoo.py:35-40 | Fewer than `keep` nests are an IndexError, and only then. The kept list is sorted, at most `keep` long, and drawn from the old kept list and nests 1 to `keep - 1`. It holds the fittest of those. |
| LegacyCuckoo.KeepBestSkipsFirst | src/drone_world/population_search/cuckoo.py:36-37 | Starting from an empty kept list, only the second nest is kept, never the first. |
| LegacyCuckoo.ReplaceWorst | src/drone_world/population_search/cuckoo.py:43-48 | Too few nests or kept nests are an IndexError, and only then. Otherwise the last `keep - 1` nests are replaced by the first `keep - 1` kept ones and the rest are untouched. |
| LegacyCuckoo.ReplaceWorstFrom | src/drone_world/population_search/cuckoo.py:43-48 | Every nest after a replacement comes from the nests or the kept list. |
| LegacyCuckoo.Select | src/drone_world/population_search/cuckoo.py:51-56 | A cuckoo is selected exactly when the draw reduced to `[0, NP - 1]` equals its index, and one draw is used. |
| LegacyCuckoo.At | src/drone_world/population_search/cuckoo.py:77 | Python indexing succeeds exactly for `-len <= k < len` and yields an element; anything else is an IndexError. |
| LegacyCuckoo.Offset | src/drone_world/population_search/cuckoo.py:74 | The pitch offset lies in `[-bw, bw - 1]`, and is zero when `bw` is zero. |
| LegacyCuckoo.HarmonyStep | src/drone_world/population_search/cuckoo.py:71-76 | With two draws the step is computed, and it never falls below `-(size / 2)`. |
| LegacyCuckoo.ChooseNewNest | src/drone_world/population_search/cuckoo.py:60-81 | The new nest is one of the best node's neighbours. No neighbours is always an error, and with neighbours and four draws it succeeds. |
| LegacyCuckoo.ChooseReaches | src/drone_world/population_search/cuckoo.py:60-81 | Every neighbour of the best node can be chosen as the new nest. |
| LegacyCuckoo.Egg | src/drone_world/population_search/cuckoo.py:105-109 | An egg keeps the number of nests, and every nest is an old one or a neighbour of the best node. Popping past the end is the only IndexError outside the choice's own faults. |
| LegacyCuckoo.Lay | src/drone_world/population_search/cuckoo.py:104-113 | One pass of the loop keeps the best node, the candidate, the kept list and the number of nests. Every nest is old, kept, or a neighbour of the best node. |
| LegacyCuckoo.LaysKeep | src/drone_world/population_search/cuckoo.py:104-113 | The loop over the cuckoos keeps the best node, the candidate, the kept list and the number of nests. From at least `NP` nests and `keep - 1` kept ones it fails only with a choice's faults. |
| LegacyCuckoo.GenerationKeeps | src/drone_world/population_search/cuckoo.py:97-116 | A generation keeps the best node, the candidate and the number of nests. From at least `NP` nests it cannot fail on an index. |
| LegacyCuckoo.GenerationsKeep | src/drone_world/population_search/cuckoo.py:97-116 | The same holds over all the generations of one pass. |
| LegacyCuckoo.SortedFirst | src/drone_world/population_search/cuckoo.py:119-120 | The first entry of a sorted sequence is no worse than the rest. |
| LegacyCuckoo.PopFittest | src/drone_world/population_search/cuckoo.py:119-122 | No nests is an IndexError, and only then. The candidate becomes the fittest nest and is removed. The best node changes only to a strictly fitter candidate. |
| LegacyCuckoo.Pass | src/drone_world/population_search/cuckoo.py:90-122 | A pass changes the best node only to a strictly fitter candidate, and grows the nests by `NP - 1`. The candidate is no worse than any nest left, and a pass fails only with known faults. |
| LegacyCuckoo.PassesKeep | src/drone_world/population_search/cuckoo.py:89-122 | Passes never make the best node worse, and fail only with a pass's faults or by running out of fuel. |
| LegacyCuckoo.Loop | src/drone_world/population_search/cuckoo.py:89-124 | A best node that already meets the goal is returned at once. Any returned node meets the goal and is no worse than the best node it started from. |
| LegacyCuckoo.Run | src/drone_world/population_search/cuckoo.py:7-124 | Anything but a node is a ValueError, and a start meeting the goal comes straight back. A returned node meets the goal and is no worse than the start. |
| LegacyCuckoo.ExpandRooted | src/drone_world/population_search/cuckoo.py:64 | The neighbours of a node on a path from the start are on one too. |
| LegacyCuckoo.LayRooted | src/drone_world/population_search/cuckoo.py:104-113 | One pass of the cuckoo loop keeps every node on a path from the start. |
| LegacyCuckoo.SortFrom | src/drone_world/population_search/cuckoo.py:32-33 | Sorting keeps the entries. |
| LegacyCuckoo.KeepBestFrom | src/drone_world/population_search/cuckoo.py:35-40 | Every kept nest was kept before or is one of the nests. |
| LegacyCuckoo.LaysRooted | src/drone_world/population_search/cuckoo.py:104-113 | The loop over the cuckoos keeps every node on a path from the start. |
| LegacyCuckoo.GenerationRooted | src/drone_world/population_search/cuckoo.py:97-116 | A generation keeps every node on a path from the start. |
| LegacyCuckoo.InitializeRooted | src/drone_world/population_search/cuckoo.py:91-92 | Laying among the candidate's neighbours keeps the nests on paths from the start. |
| LegacyCuckoo.GenerationsRooted | src/drone_world/population_search/cuckoo.py:97-116 | The generations keep every node on a path from the start. |
| LegacyCuckoo.PassRooted | src/drone_world/population_search/cuckoo.py:90-122 | A pass keeps every node on a path from the start. |
| LegacyCuckoo.LoopRooted | src/drone_world/population_search/cuckoo.py:89-124 | The node the outer loop stops at lies on a path from the start. |
| LegacyCuckoo.RunReplays | src/drone_world/population_search/cuckoo.py:83-124 | The returned node's actions, replayed from the start state, lead to a state that meets the goal. |
| Genetic.LetterId | src/drone_world/population_search/genetic_algorithm.py:138-146 | Exactly the letters r, b, g and y name a colour, and none names the drone. |
| Genetic.Letters | src/drone_world/population_search/genetic_algorithm.py:138-146 | One pass appends at most one colour per pattern letter, and never the drone. |
| Genetic.Repeat | src/drone_world/population_search/genetic_algorithm.py:137-146 | `k` passes hold `k` times as many entries as one pass. |
| Genetic.PatternFrom | src/drone_world/population_search/genetic_algorithm.py:137-146 | The pattern loop, when it ends, leaves exactly `height` entries. |
| Genetic.PatternFromRepeat | src/drone_world/population_search/genetic_algorithm.py:137-146 | From `k` passes in, the loop ends exactly when the height is a whole number of passes, and it then holds `height / m` copies. |
| Genetic.Pattern | src/drone_world/population_search/genetic_algorithm.py:135-146 | The pattern exists exactly when the height is zero or a positive whole number of passes over the recognised letters; otherwise the loop never ends. The pattern is that many copies, `height` long, with no drone entry. |
| Genetic.RepeatColours | src/drone_world/population_search/genetic_algorithm.py:137-146 | Repeating drone-free letters gives a drone-free pattern. |
| Genetic.NewPlanner | src/drone_world/population_search/genetic_algorithm.py:95-158 | Each argument check is a ValueError, in the source's order. The planner exists exactly when every check passes, the pattern loop ends and the world has a drone. It then keeps its arguments, the pattern, the state and the pools filed from the state. |
| Genetic.NewPlannerReady | src/drone_world/population_search/genetic_algorithm.py:148-158 | In a sound world the constructor leaves a drone-free pattern, a duplicate-free state and the pools filed from it. |
| Genetic.IsCovered | src/drone_world/population_search/genetic_algorithm.py:189-195 | A block is covered exactly when the cell above it is out of bounds or occupied. |
| Genetic.FitnessFromZero | src/drone_world/population_search/genetic_algorithm.py:167-174 | Under a metric the fitness from slot `k` is never negative, and it is zero exactly when those blocks already stand on their levels of the column. |
| Genetic.FitnessZero | src/drone_world/population_search/genetic_algorithm.py:167-174 | Under a metric the fitness is never negative, and it is zero exactly when every block stands at `(x, i, z)` for its slot `i`. |
| Genetic.BestFrom | src/drone_world/population_search/genetic_algorithm.py:183-186 | The scan keeps the earliest string of least fitness. |
| Genetic.BestPlan | src/drone_world/population_search/genetic_algorithm.py:176-187 | An empty population is a RuntimeError, and only an empty one is. Otherwise the plan is the earliest string of least fitness. |
| Genetic.ShufflePools | src/drone_world/population_search/genetic_algorithm.py:211-215 | The four shuffles only permute each colour's pool. |
| Genetic.WithPool | src/drone_world/population_search/genetic_algorithm.py:206-241 | Replacing one colour's list leaves the other colours' lists alone. |
| Genetic.TakeUncovered | src/drone_world/population_search/genetic_algorithm.py:220-222 | Popping runs dry, an IndexError, exactly when every block on the list is covered. Otherwise the result is the first uncovered block and what follows it, and everything popped before it was covered. |
| Genetic.Build | src/drone_world/population_search/genetic_algorithm.py:218-241 | A pass fails only with IndexError. On success it builds exactly one gene per pattern slot after the genes already there. |
| Genetic.TakeFresh | src/drone_world/population_search/genetic_algorithm.py:218-241 | Taking a block off its list keeps every list fresh for the longer string. |
| Genetic.FreshSuffix | src/drone_world/population_search/genetic_algorithm.py:220-222 | What follows the taken block on its own list stays fresh. |
| Genetic.BuildGenes | src/drone_world/population_search/genetic_algorithm.py:218-241 | Over fresh lists, a pass builds uncovered, duplicate-free genes from the state with each slot's colour. |
| Genetic.ShuffledFresh | src/drone_world/population_search/genetic_algorithm.py:206-215 | Shuffled copies of pools filed from a duplicate-free state are fresh for an empty string. |
| Genetic.PassChromosome | src/drone_world/population_search/genetic_algorithm.py:203-241 | One pass over shuffled pools builds a chromosome: one uncovered gene per slot, of the slot's colour, no block twice. |
| Genetic.Populate | src/drone_world/population_search/genetic_algorithm.py:200-246 | The loop fills the population to `pop_size`. Its only failures are IndexError, running out of draws, and a loop that cannot grow. |
| Genetic.PopulateStep | src/drone_world/population_search/genetic_algorithm.py:201-245 | One pass keeps the population duplicate-free chromosomes and within size. It either uses draws or grows the population. |
| Genetic.JoinChromosome | src/drone_world/population_search/genetic_algorithm.py:243-245 | A new chromosome joins a population of distinct chromosomes without breaking either property. |
| Genetic.PopulateChromosomes | src/drone_world/population_search/genetic_algorithm.py:200-246 | Every string of the initial population is a chromosome, and no string repeats. |
| Genetic.Initialize | src/drone_world/population_search/genetic_algorithm.py:197-246 | The initial population is `pop_size` distinct chromosomes. |
| Genetic.Uniform | src/drone_world/population_search/genetic_algorithm.py:268 | A uniform draw lies in `[0, 1]` and uses one answer; it fails exactly when no answer is left. |
| Genetic.FitnessSumZero | src/drone_world/population_search/genetic_algorithm.py:255-259 | Under a metric the fitness sum is never negative, and it is zero exactly when every string is at fitness zero. |
| Genetic.Spin | src/drone_world/population_search/genetic_algorithm.py:264-275 | The roulette keeps what was selected and fills up to the population size with strings of the population. |
| Genetic.Selection | src/drone_world/population_search/genetic_algorithm.py:248-276 | Selection divides by zero exactly when the population is non-empty and its fitness sum is zero. Otherwise it returns as many strings as the population, each one of them. |
| Genetic.SelectionZero | src/drone_world/population_search/genetic_algorithm.py:248-276 | Selection divides by zero exactly when every string of a non-empty population is already the finished tower. |
| Genetic.Redraw | src/drone_world/population_search/genetic_algorithm.py:299-308 | A redrawn gene is new to the string and uncovered, and a gene that already is comes back unchanged. |
| Genetic.RedrawGene | src/drone_world/population_search/genetic_algorithm.py:299-308 | A redrawn gene keeps its colour and comes from the state. |
| Genetic.Rebuild | src/drone_world/population_search/genetic_algorithm.py:297-309 | Rebuilding keeps the prefix and appends one uncovered gene per incoming gene, duplicate-free when the prefix is. |
| Genetic.RebuildGenes | src/drone_world/population_search/genetic_algorithm.py:297-309 | Rebuilt genes keep the colours of the genes they replace and come from the state. |
| Genetic.GenesShift | src/drone_world/population_search/genetic_algorithm.py:297-309 | The first redrawn gene and the rebuilt rest line up with the incoming genes. |
| Genetic.DiffPoints | src/drone_world/population_search/genetic_algorithm.py:286-289 | The crossover points are exactly the indices where the parents differ. |
| Genetic.Cross | src/drone_world/population_search/genetic_algorithm.py:295-324 | Each child keeps its own parent's prefix and takes redrawn, uncovered genes for the tail; a duplicate-free prefix gives a duplicate-free child. |
| Genetic.Recombine | src/drone_world/population_search/genetic_algorithm.py:278-326 | Equal parents come back unchanged without a draw. A second parent shorter than the first is an IndexError. Otherwise the cut is at an index where the parents differ. |
| Genetic.CrossChromosomes | src/drone_world/population_search/genetic_algorithm.py:295-324 | Crossing two chromosomes of one length yields two chromosomes. |
| Genetic.RebuiltChild | src/drone_world/population_search/genetic_algorithm.py:297-309 | One child of a cross is a chromosome. |
| Genetic.ChildChromosome | src/drone_world/population_search/genetic_algorithm.py:295-324 | A child with its parent's prefix and recoloured, uncovered, duplicate-free genes matching the other parent's tail is a chromosome. |
| Genetic.RecombineChromosomes | src/drone_world/population_search/genetic_algorithm.py:278-326 | Recombining two chromosomes of one length yields two chromosomes. |
| Genetic.MutateFrom | src/drone_world/population_search/genetic_algorithm.py:331-344 | Mutation keeps the length and the slots before `i`. A changed gene is uncovered, and a duplicate-free string stays duplicate-free. |
| Genetic.Mutate | src/drone_world/population_search/genetic_algorithm.py:328-345 | Mutation keeps the length; every changed gene is uncovered, and a duplicate-free string stays duplicate-free. |
| Genetic.ChromosomeUpdate | src/drone_world/population_search/genetic_algorithm.py:333-344 | Swapping a gene for an uncovered state block of its colour that the string lacks leaves a chromosome. |
| Genetic.MutateFromGenes | src/drone_world/population_search/genetic_algorithm.py:331-344 | Mutating a chromosome yields a chromosome. |
| Genetic.PairsAsWritten | src/drone_world/population_search/genetic_algorithm.py:371-373 | As written, pair `i` is `(selection[i], selection[2i])`, for half the selection. |
| Genetic.FirstPairAsWrittenUnchanged | src/drone_world/population_search/genetic_algorithm.py:371-376 | As written, the first pair is one string twice, so its crossover returns it unchanged and uses no draw. |
| Genetic.Pairs | src/drone_world/population_search/genetic_algorithm.py:371-373 | The corrected pairing forms half as many pairs as the selection has strings. |
| Genetic.PairsCover | src/drone_world/population_search/genetic_algorithm.py:371-373 | With the corrected pairing every string of an even selection is a parent exactly once, in order. |
| Genetic.Offspring | src/drone_world/population_search/genetic_algorithm.py:376-380 | Crossover and mutation of one pair fail only with the known errors. |
| Genetic.BreedWith | src/drone_world/population_search/genetic_algorithm.py:371-384 | Breeding adds both children of every pair, two per pair. |
| Genetic.BreedWithErrors | src/drone_world/population_search/genetic_algorithm.py:371-384 | Breeding fails only with errors a single pair can fail with. |
| Genetic.BreedWithKeeps | src/drone_world/population_search/genetic_algorithm.py:371-384 | A property that every pair passes to its children holds of the whole new population when it holds of every parent. |
| Genetic.Breed | src/drone_world/population_search/genetic_algorithm.py:371-384 | Breeding yields two children per pair and fails only with the known errors. |
| Genetic.BreedErrors | src/drone_world/population_search/genetic_algorithm.py:371-384 | Breeding with the planner's operators fails only with the known errors. |
| Genetic.Generation | src/drone_world/population_search/genetic_algorithm.py:358-384 | An iteration, with the pairs formed as written or corrected, keeps an even population's size, and fails only with the known errors. |
| Genetic.PairsFrom | src/drone_world/population_search/genetic_algorithm.py:371-373 | Every parent of the corrected pairing comes from the selection. |
| Genetic.BreedChromosomes | src/drone_world/population_search/genetic_algorithm.py:371-384 | Breeding chromosomes yields chromosomes. |
| Genetic.OffspringChromosomes | src/drone_world/population_search/genetic_algorithm.py:376-380 | Crossover and mutation turn two chromosomes into two chromosomes. |
| Genetic.GenerationChromosomes | src/drone_world/population_search/genetic_algorithm.py:358-384 | One iteration, with either pairing, turns a population of chromosomes into another, since both take their parents from the selection. |
| Genetic.IterationSize | src/drone_world/population_search/genetic_algorithm.py:358-384 | An iteration, with either pairing, keeps an even population size. |
| Genetic.IterationFaults | src/drone_world/population_search/genetic_algorithm.py:358-384 | An iteration, with either pairing, fails only with the errors of selection and breeding. |
| Genetic.IterateFaults | src/drone_world/population_search/genetic_algorithm.py:353-385 | The iterations of `run`, with either pairing, fail only with the errors of selection and breeding. |
| Genetic.RunChromosomes | src/drone_world/population_search/genetic_algorithm.py:353-385 | With either pairing, every string `run` leaves is a chromosome, an even `pop_size` is kept as the population size, and the errors are the known ones. The best plan afterwards is a chromosome too. |
| TowerRunners.PathLengthConcat | src/drone_world/tower_runners/tabu_tower_runner.py:40-43 | The moves counted for two replays in a row are the sum of the moves counted for each. |
| TowerRunners.LegacyMoveKeeps | src/drone_world/object/drone.py:35-73 | In a valid world with a drone, a move keeps the world valid and the drone present. It adds the request's length to the counter. Only the drone moves, plus its block when one is attached. |
| TowerRunners.LegacyReplayKeeps | src/drone_world/tower_runners/tabu_tower_runner.py:40-43 | Replaying actions keeps a valid world valid and its drone present, and adds their total length to the counter. Without an attached block no block moves; with one, only the held block follows the drone. |
| TowerRunners.Fly | src/drone_world/tower_runners/tabu_tower_runner.py:33-43 | A flight without a drone is an AttributeError. A flight that gets through leaves the drone on the target and the world valid, and counts the replayed path. It moves no block, or only the held one. A drone already on the target replays nothing. |
| TowerRunners.Haul | src/drone_world/tower_runners/tabu_tower_runner.py:48-67 | An already attached drone cannot attach again (RuntimeError). A refused release goal surfaces as its own error. A haul that gets through has taken the block below the drone to the release goal and counted its path. |
| TowerRunners.Deliver | src/drone_world/tower_runners/tabu_tower_runner.py:33-67 | A delivery that gets through started with nothing attached. It has carried the block below the pick-up cell to the release goal, moved nothing else and counted its path. Its errors are the flights' errors, attach and release errors, or the release goal's refusal. |
| TowerRunners.NewTowerRunner | src/drone_world/tower_runners/tower_runner.py:12-40 | The runner exists exactly when the world is a world, the plan is a list, the column lies within the x and z bounds, and the plan has at most `abs(y_max - y_min) - 1` entries. A non-world is a TypeError; every refusal is a TypeError or a ValueError. The runner keeps its arguments. |
| TowerRunners.NewTabuTowerRunner | src/drone_world/tower_runners/tabu_tower_runner.py:7-22 | A memory limit below one is a ValueError, checked before anything else; otherwise the base constructor decides. |
| TowerRunners.NewPlannerRunner | src/drone_world/population_search/drone_world_goal.py:13-32 | The planner runner makes the same checks as the base constructor except the plan length. It uses a tabu limit of 100 and no id check. |
| TowerRunners.AttachGoal | src/drone_world/tower_runners/tower_runner.py:49-60 | The goal exists exactly when the entry is not the drone, lies outside the tower column, has a known block id (where ids are checked) and has an in-bounds cell above it. The goal is that cell. The drone or a column entry is a RuntimeError; only the id check raises ValueError. |
| TowerRunners.AttachGoalIds | src/drone_world/population_search/drone_world_goal.py:38-47 | For a known id the runner without the id check computes the same attach goal as the one with it. |
| TowerRunners.ReleaseGoal | src/drone_world/tower_runners/tower_runner.py:62-68 | The release goal exists exactly when the cell one above the current height in the column is in bounds, and it is that cell; otherwise RuntimeError. |
| TowerRunners.DeliverStacks | src/drone_world/tower_runners/tabu_tower_runner.py:29-70 | Delivering a block from outside the column to one level above the tower keeps the tower stacked, one level higher. Stacked means distinct blocks in the column, each no higher than its level, with moves counted. |
| TowerRunners.StackNext | src/drone_world/tower_runners/tabu_tower_runner.py:29-70 | A pass raises the attach goal's error when there is one. A pass that gets through adds one level, extends the path, keeps the world valid with the same blocks, and leaves nothing attached. |
| TowerRunners.StackNextStacks | src/drone_world/tower_runners/tabu_tower_runner.py:29-70 | A pass keeps the tower stacked. |
| TowerRunners.BuildFrom | src/drone_world/tower_runners/tabu_tower_runner.py:29-71 | From entry `k`, the loop adds one level per remaining entry and keeps the tower stacked. It stops at the first attach-goal error. |
| TowerRunners.Run | src/drone_world/tower_runners/tabu_tower_runner.py:24-75 | An empty plan builds nothing. A run that gets through builds one level per plan entry, each with a different block in the column no higher than its level, and leaves nothing attached. A bad first entry fails with its attach-goal error. |
| TowerRunners.CountMoves | src/drone_world/population_search/drone_world_goal.py:57-107 | The returned count exists exactly when the run gets through. It is the number of actions replayed, and zero for an empty plan. |
| TowerPlanners.NewTabuTower | src/drone_world/drone_world_goal.py:92-105 | The planner exists exactly when the world is a world (otherwise TypeError), and it keeps the goal coordinates. |
| TowerPlanners.FirstCandidate | src/drone_world/drone_world_goal.py:112-120 | The chosen entry is the first from `k` on that is neither the drone nor in the tower column; none exists exactly when every entry is one of those. |
| TowerPlanners.AttachGoalOf | src/drone_world/drone_world_goal.py:111-120 | Without a drone the state cannot be read (AttributeError). Otherwise the goal is the cell above the first entry that is neither the drone nor in the column, if that cell is in bounds (otherwise RuntimeError). With no such entry the result is None. |
| TowerPlanners.ReleaseGoalAsWritten | src/drone_world/drone_world_goal.py:122-125 | As written, the goal exists exactly when the cell two above the height is in bounds, yet the goal is one above it. |
| TowerPlanners.ReleaseGoalBy | src/drone_world/drone_world_goal.py:122-125 | Either check returns the cell one above the height, or a RuntimeError. |
| TowerPlanners.Pass | src/drone_world/drone_world_goal.py:129-168 | A pass that gets through adds one level and extends the path. It keeps the world valid with the same blocks and leaves nothing attached. Its errors are the listed ones. |
| TowerPlanners.PassStacks | src/drone_world/drone_world_goal.py:129-168 | A pass keeps the tower stacked. |
| TowerPlanners.Climb | src/drone_world/drone_world_goal.py:129-168 | The loop stops exactly at `goal_y`. A climb that gets through is at that height, still stacked, with a valid world and the same blocks. |
| TowerPlanners.RunBy | src/drone_world/drone_world_goal.py:127-172 | `goal_y` of zero builds nothing, and a negative `goal_y` never ends well. A run that gets through stacks `goal_y` levels. |
| TowerPlanners.RunAsWritten | src/drone_world/drone_world_goal.py:127-172 | A run with the release goal as written that gets through is stacked to `goal_y`. |
| TowerPlanners.Run | src/drone_world/drone_world_goal.py:127-172 | A run that gets through puts `goal_y` different blocks in the tower column and counts every replayed move. A negative `goal_y` fails. |
| TowerPlanners.Moves | src/drone_world/drone_world_goal.py:144-162 | Over the corrected run: `moves` exists exactly when the run gets through, counts every replayed action, and is zero for a zero goal height. |
| TowerPlanners.MovesAsWritten | src/drone_world/drone_world_goal.py:144-162 | As written, over the run with the release goal checked two levels up: zero for a zero goal height, a failure for a negative one, and otherwise the count of the replayed actions exactly when that run gets through. |
| TowerPlanners.NewCrowTower | src/drone_world/population_search/drone_world_goal.py:110-122 | The planner exists exactly when the world is a world and the height is at most `y_max - 1`. A non-world is a TypeError and a height too tall a ValueError. |
| TowerPlanners.LastDrone | src/drone_world/population_search/drone_world_goal.py:130-135 | No drone position is recorded exactly when no entry carries the drone's id; the last such entry wins. |
| TowerPlanners.InitializePlanner | src/drone_world/population_search/drone_world_goal.py:128-135 | Reading the state fails exactly when there is no drone. `blocks` holds exactly the state's non-drone entries, in order, and `drone_pos` is the drone's cell. |
| TowerPlanners.GenerateGoal | src/drone_world/population_search/drone_world_goal.py:137-141 | Too few blocks is a RuntimeError and a negative height a ValueError. Otherwise the sample exists exactly when enough draws are left. It is `height` entries of `blocks`, all different when the blocks are. |
| TowerPlanners.CrowRun | src/drone_world/population_search/drone_world_goal.py:143-155 | Without a drone, `run` is an AttributeError. A run that gets through read the drone and blocks from the world, sampled `height` goal entries from the blocks, and returns a solution that fits the goal, scored by the crow fitness. |
| GridWorld.AxisIndex | src/drone_world.py:33-52 | An axis index exists exactly when the coordinate lies in `[lo, hi]`; it is the offset from `lo`, inside the axis's range. Otherwise it is a bounds error. |
| GridWorld.Index | src/drone_world.py:57-59 | A cell has a slot exactly when it is in bounds, and the slot lies inside the array and maps back to the cell. |
| GridWorld.NewGrid | src/drone_world.py:9-31 | A grid exists exactly when no axis minimum exceeds its maximum (otherwise ValueError). Every axis is at least one slot wide, the grid starts empty, and records agree with the array. |
| GridWorld.GetObject | src/drone_world.py:54-61 | Out of bounds is a bounds error. In a consistent grid, the answer names the object recording that cell, or nothing when no object records it. |
| GridWorld.IsOccupied | src/drone_world.py:63-66 | Out of bounds is a bounds error. A cell is occupied exactly when its slot holds an object, which in a consistent grid is exactly when some object records that cell. |
| GridWorld.AddObject | src/drone_world.py:68-77 | Adding succeeds exactly when the cell is in bounds and free. Out of bounds is a bounds error and occupied is a ValueError. On success the object joins the end of the list and its slot. |
| GridWorld.NewPiece | src/drone_world_object.py:8-14 | A new object is registered exactly when its cell is in bounds and free. It joins the end of the list, keeps a consistent grid consistent, and is what its cell then holds. |
| GridWorld.AddKeeps | src/drone_world.py:68-77 | Adding an object at its own cell keeps a consistent grid consistent. |
| GridWorld.CanMoveObject | src/drone_world.py:79-83 | Only the target is asked: out of bounds is a bounds error, otherwise a move is allowed exactly when the target is free. |
| GridWorld.Shift | src/drone_world.py:94-95 | After the copy the source slot is empty and the target holds what the source held. All other slots are unchanged. |
| GridWorld.MoveObjectAsWritten | src/drone_world.py:85-95 | As written, the move succeeds exactly when both cells are in bounds. It copies the source slot over the target slot, clears the source, and touches no object's record. |
| GridWorld.MoveAsWrittenDrops | src/drone_world.py:85-95 | Moving onto an occupied cell drops the occupant from the array, and moving an object onto its own cell drops the object. |
| GridWorld.PieceMoveAsWritten | src/drone_world_object.py:16-28 | As written, a move within bounds always reports failure and no object records a new cell. |
| GridWorld.AsWrittenLosesTrack | src/drone_world_object.py:16-28 | Any real in-bounds move of an object in a consistent grid leaves it inconsistent, though the move reports failure. |
| GridWorld.MoveObject | src/drone_world.py:85-95 | Corrected: in bounds, a move is made and reported exactly when the target is free; a refused move changes nothing. |
| GridWorld.PieceMove | src/drone_world_object.py:16-28 | Over the corrected move, as the method's documentation promises: a target outside the world or occupied is refused with `False` and changes nothing, and the object takes its new cell exactly when the target is in the world and free. Only an object recording a cell outside the world meets a bounds error. No other object's record changes. |
| GridWorld.PieceDrop | src/block.py:8-12 | Dropping over the corrected move: the block keeps its column and id, never rises, and rests where the cell below is outside the world or occupied; a block on the floor stays put; no other record changes; a consistent grid stays consistent and never meets a bounds error. |
| GridWorld.PieceMoveKeeps | src/drone_world_object.py:16-28 | The corrected move keeps a consistent grid consistent. |
| GridWorld.State | src/drone_world.py:97-103 | One entry per object, in insertion order, with the object's id and cell. |

## Left out

- Rendering (matplotlib figures), the scripts (`run*.py`, `build_tower*.py`, `generate_random_world.py`, `run_test.py` and the newer tree's runner scripts) and the CSV loaders `DroneWorld.initialize` (newer tree) and `CrowSearchPlanner.initialize`: these are file, terminal and plotting I/O.
- Wall-clock time (`time.time()`, `runtime`, `get_runtime`) and debug printing: neither affects any decision.
- Simulated annealing (src/drone_world/search/simulated_annealing.py): its acceptance test is an `exp` of floating-point values.
- The pseudo-random generator itself. Every `random.*` call reads its answer from a sequence parameter. `random.random()` and `random.uniform(0, 1)` are read to the hundredth, and so are the harmony-search rates HMCR and PAR of the older cuckoo search.
- The Lévy step functions (`levy_flight` in both cuckoo files, the step of the discrete cuckoo search): these are floating-point power and gamma functions. The step size, or the branch it decides, is read from the answers. The discrete cuckoo's "big step" branch is taken when the answer is below 17 (per cent), standing for `u < 1.8^-3`.
- The older cuckoo step divides by a second `random.random()` (src/drone_world/population_search/cuckoo.py:72). The model folds that quotient into one drawn number, so the ZeroDivisionError a draw of exactly zero would raise is not modelled.
- Python's aliasing: lists passed into and out of objects (the genetic planner's population, the crows' positions) are values here, so a later in-place change made through another reference is not modelled.
- numpy's object array in the grid prototype: the model is a map from slots to positions in the object list.
- Loops that never end in the source are cut off by a `fuel` count or by running out of answers, and reported as `Diverges` or `OracleExhausted`. This applies to the older tabu search (no iteration cap), the tower planners' `while` loop, the retry loops of the population searches and the genetic planner's pattern and population loops. A run that needs more passes than the given fuel is not distinguished from one that never ends.
- `Valid(world)`, asked of callers by the drivers and the planners: no two objects share a cell and everything is in bounds. Every world built through the constructors and the operations satisfies it (`WorldModel.MoveObjSound`, `WorldModel.DropSound`, `DroneOps.DroneMoveKeeps`), and the source assumes it throughout.
- Copies of code that is modelled once: src/drone.py (the older copy of the drone), and src/block.py apart from its `drop`, which `GridWorld.PieceDrop` models over the prototype grid; the `DroneWorldGoal` copies in src/drone_world/drone_world_goal.py and src/drone_world/population_search/drone_world_goal.py; and the `TabuTowerPlannerRunner` copy in src/drone_world/population_search/genetic_algorithm.py:9-92.
- The newer tree's own `Node` and the newer id definitions, which are not part of this model: src/drone_world/search/node.py is used as the node, and the ids are the drone plus four colours.
- The dump/obstruction subroutine and the replanning loop of the newer driver: the driver never fills the dump list, so `run` only ever executes goal objectives (`CsaPlanner.RunAll`).
- `TowerPlanners.InitializePlanner`: the source appends to `self.blocks` on every call, so a second `run` on the same planner doubles the block list. The model reads the world afresh for each run.
- `get_drone_location` of the older world: src/drone_world/drone_world.py does not define it, although the older runners and goal wrapper call it. The model reads the drone's cell directly, as the newer world's definition does.
- `LegacyCrow.GlobalFlight`: its contract states only that the length is kept. What the flight puts into each slot is stated by `LegacyCrow.GlobalFlightReturns`, for a duplicate-free target.
- `CrowSearch.GlobalFlight`: its contract states the length, the untouched slots and the errors. The colour of each new block is stated by `CrowSearch.GlobalFlightKeeps`.
- `NewerCuckoo.LevyFlight`: the steps are read from the answers as pool indices. The contract states that the nest keeps its shape and caches its own fitness, not how the steps are distributed.
- `TowerRunners.Fly`: the tabu search is run with `fuel` passes, so a flight that would succeed after more passes is reported as `Diverges`.
- `DroneOps.CommonMoves`: the source intersects two sets of moves, so the common moves come in Python 2's hash order. The model fixes the order +x, -x, +y, -y, +z, -z in its place. The tabu searches take the first strictly better neighbour, so a different order can yield a different path and move count.
- `DroneOps.DroneActions`: the carrying branch lists the common moves in the fixed order of `DroneOps.CommonMoves`, standing for hash order.
- `LegacyWorld.Actions`: the older carrying branch also lists the common moves in the fixed order, standing for hash order.
- `PopulationSearch.FirstNonEmpty`: the source walks the `blocks` dictionary in hash order and never uses the shuffled key list it builds. The model walks the pools in insertion order.
- `CsaPlanner.Choose`: builds the crow search with the corrected constructor. As written, `run` stops at the constructor's TypeError (`CsaPlanner.PlanAsWritten`).
- `CsaPlanner.Fly`: flies with the corrected replay of the tabu planner. As written, `run` never reaches a flight (`CsaPlanner.PlanAsWritten`), so no flight over the as-written replay is modelled.
- `CsaPlanner.RunObjective`: the newer driver over the corrected crow search constructor and the corrected replay of the tabu planner. As written, `run` stops at the TypeError of the crow search's constructor before any flight (`CsaPlanner.PlanAsWritten`), so no flight over the as-written replay is modelled.
- `CsaPlanner.Carry`: the newer driver over the corrected crow search constructor and the corrected replay of the tabu planner. As written, `run` stops at the TypeError of the crow search's constructor before any flight (`CsaPlanner.PlanAsWritten`), so no flight over the as-written replay is modelled.
- `CsaPlanner.Next`: the newer driver over the corrected crow search constructor and the corrected replay of the tabu planner. As written, `run` stops at the TypeError of the crow search's constructor before any flight (`CsaPlanner.PlanAsWritten`), so no flight over the as-written replay is modelled.
- `CsaPlanner.RunAll`: the newer driver over the corrected crow search constructor and the corrected replay of the tabu planner. As written, `run` stops at the TypeError of the crow search's constructor before any flight (`CsaPlanner.PlanAsWritten`), so no flight over the as-written replay is modelled.
- `CsaPlanner.RunFrom`: the newer driver over the corrected crow search constructor and the corrected replay of the tabu planner. As written, `run` stops at the TypeError of the crow search's constructor before any flight (`CsaPlanner.PlanAsWritten`), so no flight over the as-written replay is modelled.
- `CsaPlanner.RunFromEndsFree`: the newer driver over the corrected crow search constructor and the corrected replay of the tabu planner. As written, `run` stops at the TypeError of the crow search's constructor before any flight (`CsaPlanner.PlanAsWritten`), so no flight over the as-written replay is modelled.
- `CsaPlanner.Plan`: the newer driver over the corrected crow search constructor and the corrected replay of the tabu planner. As written, `run` stops at the TypeError of the crow search's constructor before any flight (`CsaPlanner.PlanAsWritten`), so no flight over the as-written replay is modelled.
- `PopulationSearch.PopulationInit`: stores the corrected, sorted goal. The constructor as written is `PopulationSearch.PopulationInitAsWritten`, whose goal keeps its given order.
- `DiscreteCuckoo.Refresh`: uses the corrected two-opt move. The loops as written are `DiscreteCuckoo.RefreshAsWritten`.
- `DiscreteCuckoo.RefreshFit`: holds of the corrected refresh only. As written, a refresh can recolour a slot, so a nest can stop solving the goal (`DiscreteCuckoo.RefreshAsWrittenBreaksFit`).
- `DiscreteCuckoo.GenerationFit`: holds of the corrected generation only, for the same reason.
- `DiscreteCuckoo.GenerationsFit`: holds of the corrected generations only, for the same reason.
- `DiscreteCuckoo.SearchFit`: holds of the corrected search only, for the same reason.
- `DiscreteCuckoo.RunFits`: holds of the corrected run only, for the same reason.
- `DiscreteCuckoo.Generation`: takes a flag that selects the as-written or the corrected moves and egg loop. Its contract holds for both; `DiscreteCuckoo.Generations`, `DiscreteCuckoo.Search`, `DiscreteCuckoo.Run` and `DiscreteCuckoo.RunMinimal` pass the flag on.
- `Genetic.Generation`: takes a flag that selects the as-written or the corrected pairing. The contracts of `Genetic.GenerationChromosomes` and `Genetic.RunChromosomes` hold for both.
- `TowerPlanners.Moves`: counts the corrected run. The count over the run as written is `TowerPlanners.MovesAsWritten`.
- `Common.SortBy`: the contract states order and permutation, not stability. The insertion sort keeps ties in their input order, as Python's stable `list.sort` does, but no contract states it.

## Findings

| source | as written | input that shows it | evidently intended | confidence | as-written member | corrected member |
|---|---|---|---|---|---|---|
| drone_world/planner/low_level/tabu_planner.py:57-60 | each replayed action is passed to `move` as `(z, y, z)` | a lone drone sent one cell along +x: the action (1, 0, 0) is replayed as (0, 0, 0), which fails, and the drone stays put | replay `(x, y, z)` | high, not executed | TabuPlanner.RunPlannerAsWritten, TabuPlanner.AsWrittenMissesTarget, TabuPlanner.LoneDroneMisses | TabuPlanner.RunPlanner, TabuPlanner.CorrectedReachesTarget, CsaPlanner.Fly |
| drone_world/planner/high_level/population_search/population_search.py:24-46 | `sorted(...)` is called and its result discarded, so the "sorted" goal keeps the input order | goal entries at heights 1 then 0 stay in that order; one raised goal block is followed by its filler below | return the goal sorted by height | high, not executed | PopulationSearch.SortAsWrittenUnsorted, PopulationSearch.SortDescendingAsWritten, PopulationSearch.FillGoalAsWritten, PopulationSearch.FillGoalAsWrittenUnsorted, PopulationSearch.PopulationInitAsWritten, PopulationSearch.PopulationInitAsWrittenUnsorted | PopulationSearch.SortAscending, PopulationSearch.SortDescending, PopulationSearch.FillGoal, PopulationSearch.SortedCompletion, PopulationSearch.PopulationInit |
| drone_world/planner/high_level/population_search/crow_search.py:6-14 | the crow passes `(blocks, goal, world)` to a base constructor that expects the world first | any call: the base constructor's world type check fails with TypeError | pass `(world, blocks, goal)` | high, not executed | CrowSearch.NewCrowAsWritten, CsaPlanner.ParseObjectsAsWritten, CsaPlanner.PlanAsWritten | CrowSearch.NewCrow, CsaPlanner.ParseObjects, CsaPlanner.Plan |
| drone_world/population_search/cuckoo.py:152-180 | the Lévy flight returns a nest whose cached fitness is the parent's, so a new egg is never seen as fitter | any flight that changes a block: the egg's cached fitness is still the parent's | recompute the fitness of the new nest | high, not executed | NewerCuckoo.LevyFlightAsWritten, NewerCuckoo.StaleFitness, NewerCuckoo.LayAsWrittenStill | NewerCuckoo.LevyFlight, NewerCuckoo.LayKeepsSound |
| src/drone_world/population_search/DSC.py:39-55 | the swap partner is `randint(0, len(same))`, used as an index into the whole solution | red, green, red with the draw 1: the first slot takes the green block | swap with the slot of a drawn same-coloured mate | high, not executed | DiscreteCuckoo.TwoOptAsWritten, DiscreteCuckoo.TwoOptRecolours, DiscreteCuckoo.TwoOptBreaksFit, DiscreteCuckoo.RefreshAsWritten, DiscreteCuckoo.RefreshAsWrittenBreaksFit | DiscreteCuckoo.TwoOpt, DiscreteCuckoo.SameSlotsFits, DiscreteCuckoo.Refresh, DiscreteCuckoo.RefreshFit, DiscreteCuckoo.SearchFit |
| src/drone_world/population_search/DSC.py:58-62 | the double bridge discards the results of its four two-opt moves and returns its input | any solution: the move returns it unchanged | chain the four moves | high, not executed | DiscreteCuckoo.DoubleBridgeAsWritten | DiscreteCuckoo.DoubleBridge |
| src/drone_world/population_search/DSC.py:74-82 | the egg loop rebinds a local variable, so the nest list never changes | any population: the egg loop returns it unchanged | store the fitter egg in the nest list | high, not executed | DiscreteCuckoo.EggsAsWritten | DiscreteCuckoo.Eggs, DiscreteCuckoo.EggsFit |
| src/drone_world/population_search/genetic_algorithm.py:371-373 | parents are paired as `(selection[i], selection[i * 2])` | any selection: the first pair is one string twice, so its crossover returns it unchanged | pair consecutive strings `(selection[2i], selection[2i + 1])` | high, not executed | Genetic.PairsAsWritten, Genetic.FirstPairAsWrittenUnchanged, Genetic.Generation | Genetic.Pairs, Genetic.PairsCover, Genetic.Generation |
| src/drone_world/drone_world_goal.py:122-125 | the release goal checks bounds two levels above the tower but returns the cell one level above | a tower one level below the ceiling: the last block is refused although its goal cell is in the world | check the cell that is returned | medium, not executed | TowerPlanners.ReleaseGoalAsWritten, TowerPlanners.RunAsWritten, TowerPlanners.MovesAsWritten | TowerRunners.ReleaseGoal, TowerPlanners.Run, TowerPlanners.Moves |
| src/drone_world.py:85-95 | `move_object` returns nothing and never checks the target, so `DroneWorldObject.move` never updates the object's cell | any in-bounds move of an object by a non-zero delta: the array holds it at the new cell, while the object still records the old one | return whether the move was made, refusing an occupied or out-of-bounds target with `False` | high, not executed | GridWorld.PieceMoveAsWritten, GridWorld.AsWrittenLosesTrack, GridWorld.MoveAsWrittenDrops | GridWorld.MoveObject, GridWorld.PieceMove, GridWorld.PieceMoveKeeps, GridWorld.PieceDrop |
