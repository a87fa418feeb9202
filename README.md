# Race simulator engine, modelled in Dafny

This project models the simulation engine of the Python race simulator: the
tick driver `Game`, the cars, the obstacles, the random lane-change
controller and the iterator helpers that produce obstacles. Four cars race
down a track of length 30 with 4 lanes. On each tick:

1. every active car asks its controller for a decision, changes lane if the
   decision is a lane change, and moves forward by its speed;
2. obstacles move (moving ones only), and those off the track are dropped;
3. one new obstacle may spawn at the top;
4. active cars that hit an obstacle crash;
5. the first finished car wins, or the game ends without a winner once
   every car has crashed.

A game that is not running ignores `update`.

Layout, one module per source file:

- `common.dfy` (`Common`): Option, `Abs`, `Distinct`, subsequences.
- `config.dfy` (`Config`): the constants of `config.py`.
- `random_controller.dfy` (`Controllers`): the controller as a value.
- `obstacle.dfy` (`Obstacles`): the `ObstacleState` value with its predicates and step, and the `Obstacle` class.
- `car.dfy` (`Cars`): the `CarState` value (what `get_state` reports) with its transitions, and the `Car` class.
- `generators.dfy` (`Generators`): `take`, `obstacle_generator_n` and `obstacle_generator` over a `Source` that is finite or endless.
- `game.dfy` (`Games`): one tick specified on values (`Tick` and its parts), and the `Game` class proved against it.

Every method that updates fields in place is a class method. Its contract
ties the new state to a value-level function of the old state, for example
`GetState() == old(GetState()).MoveDown()`. The lemmas then prove the
source's promises about those functions.

Each random draw is an explicit parameter restricted to its documented range:

- the car's speed roll;
- the controller's roll and its choice of direction;
- the spawn roll;
- the new obstacle's lane, kind roll and speed roll.

## Model

| member | source | states |
|---|---|---|
| Controllers.RandomController.DecideAction | python/src/controllers/random.py:34-55 | the result is `Stay` or a lane change by -1 or +1; it is a lane change exactly when the roll is below the lane-change chance; a chance of 0 or less always gives `Stay` |
| Controllers.DecisionIgnoresCarState | python/src/controllers/random.py:48-55 | the decision is the same whatever car state it is given |
| Controllers.DefaultControllerMostlyStays | python/src/controllers/random.py:25-55 | with the default chance 0.05, any roll of 0.05 or more gives `Stay` |
| Controllers.RandomController.GetConfig | python/src/controllers/random.py:57-67 | reports type "random" and the chance the controller was built with |
| Obstacles.ObstacleState.Update | python/src/entities/obstacle.py:29-32 | a static obstacle stays put; a moving one advances by exactly its speed; lane, kind and speed do not change; a well-formed obstacle never moves backwards |
| Obstacles.ObstacleState.IsAt | python/src/entities/obstacle.py:34-45 | `is_at(p, l)` holds iff the lane is `l` and `p` lies strictly between position - 1 and position + 1 |
| Obstacles.ObstacleState.IsOffTrack | python/src/entities/obstacle.py:47-57 | on the track iff 0 <= position <= track length; off it otherwise |
| Obstacles.Obstacle.IsAt | python/src/entities/obstacle.py:34-45 | the object's `is_at(p, l)`: its lane is `l` and `p` lies strictly between its position - 1 and its position + 1 |
| Obstacles.Obstacle.IsOffTrack | python/src/entities/obstacle.py:47-57 | the object's `is_off_track`: its position is below 0 or beyond the track length |
| Obstacles.InitialSpeed | python/src/entities/obstacle.py:27 | for a roll in [0, 1), a static obstacle gets speed 0 and a moving one a speed in [0, 0.5) |
| Obstacles.IsAtOwnPlace | python/src/entities/obstacle.py:34-45 | an obstacle is at its own position and lane |
| Obstacles.OffTrackBoundaries | python/src/entities/obstacle.py:47-57 | both ends of the track, position 0 and the track length, count as on the track |
| Obstacles.RandomObstacle | python/src/entities/obstacle.py:73-86 | the new obstacle is at the given position, in the drawn lane within [0, 4), moving iff the kind roll is below 0.2, with a speed that fits its kind |
| Obstacles.Obstacle.constructor | python/src/entities/obstacle.py:14-27 | sets lane, position and kind; the speed is 0 when static and the roll times 0.5 when moving |
| Obstacles.Obstacle.Update | python/src/entities/obstacle.py:29-32 | the obstacle's new state is `ObstacleState.Update` of its old state; only `position` may change |
| Obstacles.Obstacle.CreateRandom | python/src/entities/obstacle.py:73-86 | returns a fresh obstacle whose state is `RandomObstacle` of the draws |
| Obstacles.AnyObstacleAt | python/src/entities/car.py:85-88 | the left-to-right `any` is true iff some obstacle in the list is at the place |
| Cars.CarState.MoveDown | python/src/entities/car.py:43-53 | a car that is not active is unchanged; an active car advances by its speed; it finishes exactly when it reaches the track length and is then clamped there, so its position never exceeds the track length; it never crashes here |
| Cars.CarState.SwitchLane | python/src/entities/car.py:55-69 | only the lane may change, by exactly `direction`, and only for an active car whose target lane exists; a lane in range stays in range |
| Cars.CarState.Crash | python/src/entities/car.py:90-93 | the status becomes crashed and the speed is halved; id, lane and position are kept |
| Cars.CarState.Update | python/src/entities/car.py:110-126 | a car that is not active is unchanged; a lane change is applied before the move; `Stay` keeps the lane; a car that is not active never becomes active again |
| Cars.UpdateKeepsWellFormed | python/src/entities/car.py:110-126 | from a well-formed state the updated state is well formed (lane in range, position on the track, positive speed, finished only at the finish line) and the position does not decrease |
| Cars.CrashKeepsWellFormed | python/src/entities/car.py:90-93 | crashing an active well-formed car leaves it well formed |
| Cars.NoCollisionWithoutObstacles | python/src/entities/car.py:81-88 | no car collides with an empty list of obstacles |
| Cars.StartingSpeed | python/src/entities/car.py:33 | for a roll in [0, 1), the starting speed is in [0.5, 2.0) |
| Cars.Car.GetState | python/src/entities/car.py:95-108 | the snapshot holds the car's id, lane, position, speed and status as they are now |
| Cars.Car.constructor | python/src/entities/car.py:21-36 | a new car is at position 0, active, in the given lane with the given id and controller, and its speed is in [0.5, 2.0) |
| Cars.Car.MoveDown | python/src/entities/car.py:43-53 | the car's new state is `CarState.MoveDown` of its old state; only position and status may change |
| Cars.Car.SwitchLane | python/src/entities/car.py:55-69 | the car's new state is `CarState.SwitchLane` of its old state; only the lane may change |
| Cars.Car.CheckCollision | python/src/entities/car.py:71-88 | true iff the car is active and some obstacle has its lane and is within 1 of its position |
| Cars.Car.Crash | python/src/entities/car.py:90-93 | the car's new state is `CarState.Crash` of its old state; only status and speed change |
| Cars.Car.UpdateAsync | python/src/entities/car.py:110-126 | the car's new state is `CarState.Update` of its old state under its controller's decision |
| Generators.Source.Available | python/src/utils/generators.py:80-85 | the count of the first `n` items that exist: `min(max(n, 0), length)` for a finite source, `max(n, 0)` for an endless one |
| Generators.Take | python/src/utils/generators.py:64-85 | yields `min(max(n, 0), length)` items, nothing when `n <= 0`; they are the source's first items in order; when the result is drained to the end, one extra item is pulled if the source still has one at the cut-off |
| Generators.ObstacleGeneratorN | python/src/utils/generators.py:28-40 | yields `max(count, 0)` obstacles, each the random obstacle of its draws at position 0 |
| Generators.ObstacleGenerator | python/src/utils/generators.py:11-25 | an endless source whose i-th item is the random obstacle of the i-th draws at position 0 |
| Generators.TakeFiveObstacles | python/src/utils/generators.py:76-78 | taking 5 from the endless obstacle generator gives exactly 5 obstacles at position 0 |
| Games.CarsUpdated | python/src/game.py:51-54 | the list of car states keeps its length; each car takes its own update with its own controller's decision |
| Games.KeepOnTrack | python/src/game.py:79-83 | the filter never lengthens the list, and no obstacle it keeps is off the track |
| Games.KeepOnTrackFilters | python/src/game.py:79-83 | every kept obstacle comes from the input and is on the track; every obstacle on the track is among those kept |
| Games.KeepOnTrackCount | python/src/game.py:79-83 | exactly one obstacle is kept per input position that is on the track; with `KeepOnTrackKeepsOrder` this makes the result the filtered list itself |
| Games.ObstaclesUpdated | python/src/game.py:70-83 | after moving and filtering, the list is no longer than before and no obstacle in it is off the track |
| Games.KeepOnTrackKeepsOrder | python/src/game.py:79-83 | the kept obstacles are a subsequence of the moved ones, so their relative order is kept |
| Games.OnTrack | python/src/game.py:79-83 | the kept objects' states are the filtered states, every kept object came from the input, and distinct objects stay distinct |
| Games.Spawned | python/src/game.py:85-91 | at most one obstacle is appended, exactly when the roll is below 0.1; the existing obstacles are untouched; the new one is at position 0, in a lane, well formed |
| Games.Collided | python/src/game.py:102-109 | the collision pass keeps one state per car (its other properties are stated by `CollisionsCrashExactlyColliders`) |
| Games.CollisionsCrashExactlyColliders | python/src/game.py:102-109 | a car's state changes exactly when it is active and hits an obstacle; such a car is crashed at half speed in place |
| Games.CollidedIds | python/src/game.py:102-109 | an id is returned iff some car with that id collides |
| Games.FirstFinished | python/src/game.py:117-120 | finds the first finished car in list order, or none when no car is finished |
| Games.WinOutcome | python/src/game.py:111-133 | a win iff some car is finished, won by the first finished car; all crashed iff every car is crashed; otherwise undecided, meaning no car is finished and some car is still active |
| Games.WinnerHasLowestFinishedId | python/src/game.py:117-124 | when ids ascend along the list (as `initialize` creates them), the winner has the lowest id among finished cars |
| Games.Tick | python/src/game.py:43-68 | one running tick keeps one state per car and each car's id, and adds at most one obstacle |
| Games.TickFreezesStoppedCars | python/src/game.py:43-68 | a tick leaves every crashed or finished car exactly as it was |
| Games.TickNeverReactivates | python/src/game.py:43-68 | after a tick, a car is active only if it was active before |
| Games.TickPreservesWellFormed | python/src/game.py:43-68 | a tick keeps cars and obstacles well formed (ids equal list positions, states in range, obstacles on the track) and no car moves backwards |
| Games.CountStatus | python/src/game.py:189-197 | the count of cars with a status is at most the number of cars |
| Games.CountIsNumberOfCars | python/src/game.py:189-197 | the count equals the number of list positions holding a car with that status |
| Games.StatusCountsAddUp | python/src/game.py:207-216 | the active, crashed and finished counts add up to the number of cars |
| Games.FirstWithId | python/src/game.py:249 | the index of the first car with the id, or none exactly when no car has it |
| Games.Game.constructor | python/src/game.py:18-25 | no cars, no obstacles, tick 0, state initialized, no winner |
| Games.Game.Initialize | python/src/game.py:27-41 | exactly 4 fresh, distinct cars; car i is active at position 0 in lane i with id i, with the default controller; the game is running |
| Games.Game.IsRunning | python/src/game.py:135-137 | true iff the game state is running |
| Games.Game.MoveCars | python/src/game.py:51-54 | each car's new state is its update under its own decision, in list order; obstacles are untouched |
| Games.Game.UpdateObstacles | python/src/game.py:70-83 | the new obstacle states are the old ones moved and then filtered; every kept obstacle was there before; cars are untouched |
| Games.Game.SpawnObstacle | python/src/game.py:85-91 | the obstacle states become `Spawned` of the old ones; the old obstacle list is a prefix of the new one; cars are untouched |
| Games.Game.CheckCollisions | python/src/game.py:93-109 | the car states become `Collided` of the old ones; the returned set is `CollidedIds`; obstacles are untouched |
| Games.Game.CheckCar | python/src/game.py:104-107 | one car of the scan: the result says whether it collided; it is crashed exactly in that case |
| Games.Game.CheckWinCondition | python/src/game.py:111-133 | winner and state follow `WinOutcome` of the cars: the first finished car wins and the game finishes; with all crashed the game finishes without a winner; otherwise nothing changes |
| Games.Game.Advance | python/src/game.py:51-60 | the cars update, then the obstacles move and are filtered, then one may spawn |
| Games.Game.Conclude | python/src/game.py:62-68 | collisions crash the colliding cars, the win check decides on the result, and the tick count grows by one |
| Games.Game.Update | python/src/game.py:43-68 | when not running, nothing changes; when running, cars, obstacles and outcome are those of `Tick` on the old states, and the tick count grows by exactly 1 |
| Games.Game.GetOccupiedLanes | python/src/game.py:160-173 | a lane is in the set iff some active car is in it; within lanes 0..3 when every car's lane is |
| Games.Game.GetAvailableLanes | python/src/game.py:175-187 | lanes among 0..3 that are not occupied; when every car's lane is in 0..3, occupied and available lanes partition 0..3 |
| Games.Game.CountCars | python/src/game.py:234 | the number of cars with the given status |
| Games.Game.GetActiveCarsCount | python/src/game.py:189-197 | the number of active cars |
| Games.Game.GetStats | python/src/game.py:199-220 | the active, crashed and finished counts are the numbers of cars with each status, and they add up to the number of cars; the active count agrees with `GetActiveCarsCount`; tick, state and obstacle count are reported as they are; the winner is reported by its id |
| Games.Game.GetCarStatusSummary | python/src/game.py:222-236 | one entry per status, each the number of cars with that status; the entries agree with `GetStats` and `GetActiveCarsCount` and add up to the number of cars |
| Games.Game.GetCarById | python/src/game.py:238-260 | null iff no car has the id; otherwise the first car with that id (every match arm returns the car found) |

## Left out

- Concurrency: the `asyncio.gather` over the cars is modelled as a sequential loop in list order. Each car's update touches only its own fields, and the controller has no mutable state.
- Randomness: the `random` module is not modelled. Every draw is a parameter restricted to its range. The spawn draw and the new obstacle's draws are made on every tick even when nothing spawns.
- Floating point: positions and speeds are reals, so there is no rounding.
- `to_dict`, `get_state_snapshot`, `get_winner` and the display symbols of cars and obstacles are serialisation and cosmetics only. `get_state` is modelled as `Car.GetState`, without a dictionary.
- `renderer.py` and `main.py` are not part of this model: terminal drawing, the paced main loop and signal handling.
- `async_obstacle_generator` only adds a sleep between the items that `obstacle_generator` yields.
- Generators.Take: the laziness of the Python generator is not modelled. `out` is what a consumer that drains `take` receives, and `consumed` counts the items such a consumer makes it pull. A consumer that stops after `n` calls to `next` leaves the extra item unpulled.
- Generators.ObstacleGenerator: the generators yield the state each new obstacle is created with, not `Obstacle` objects.
- Cars.Car.UpdateAsync: the controller's dictionary result is the `Action` datatype. Only the two shapes `decide_action` returns are represented.
- Obstacles.Obstacle.constructor: the `type` string becomes the kind `Static` or `Moving`. The model has no other kind; the source treats any string other than 'moving' as static.
- Games.Game.Initialize: the list comprehension becomes a loop creating the four cars in order.
- Games.Game.Update: the tick is modelled as two phases, `Advance` then `Conclude`, in the source's order.
- Games.Game.Conclude: it increments the tick before the collision and win checks rather than after. Neither check reads the tick, so the end state is the same.
- Games.Game.Update: preservation of well-formed cars and obstacles is stated on values by `TickPreservesWellFormed` and not restated in the method's contract.
- Games.Game.GetStats: reports the winner as an optional id rather than the string `'Car <id>'`.
- Games.Game.GetCarById: in the source, the `case _` arm of the match can never be reached.
- `winner` may keep pointing at a car from an earlier race after `initialize` is called again, as in the source. `Valid` therefore does not require the winner to be in `cars`.
- No event log or time-step scaling is modelled, because the engine's code has neither. The controller does not clamp the direction; `switch_lane` enforces the lane bounds.
