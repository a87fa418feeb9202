/**
 * The tick driver (python/src/game.py). The first half of the module is the
 * specification on values: what one tick does to the list of car states and
 * the list of obstacle states, and which outcome the win check reaches. The
 * second half is `class Game`, whose methods are proved against it.
 */
module Games {
  import opened Common
  import opened Config
  import opened Controllers
  import opened Obstacles
  import opened Cars

  datatype GameState = Initialized | Running | Finished

  /** Ids and lanes of the cars `initialize` creates. */
  const StartingLanes: seq<int> := [0, 1, 2, 3]

  /** The lanes `get_available_lanes` starts from. */
  const AllLanes: set<int> := {0, 1, 2, 3}

  /** Every random draw one `update` makes: one decision per car, the spawn roll, the new obstacle's draws. */
  datatype TickDraws = TickDraws(decisions: seq<DecisionDraw>, spawnRoll: real, obstacle: ObstacleDraws) {
    predicate Fits(carCount: nat) {
      && |decisions| == carCount
      && (forall i :: 0 <= i < |decisions| ==> decisions[i].InRange())
      && 0.0 <= spawnRoll < 1.0
      && obstacle.InRange()
    }
  }

  // ---------------------------------------------------------------------------
  // One tick, on values
  // ---------------------------------------------------------------------------

  /** Every car runs `update_async` with its own controller and draws, in list order. */
  function CarsUpdated(cs: seq<CarState>, ctrls: seq<RandomController>, ds: seq<DecisionDraw>): (r: seq<CarState>)
    requires |ctrls| == |cs| == |ds|
    requires forall i :: 0 <= i < |ds| ==> ds[i].InRange()
    ensures |r| == |cs|
    ensures forall i :: 0 <= i < |cs| ==> r[i] == cs[i].Update(ctrls[i].DecideAction(cs[i], ds[i]))
  {
    seq(|cs|, i requires 0 <= i < |cs| => cs[i].Update(ctrls[i].DecideAction(cs[i], ds[i])))
  }

  /** The obstacles that are still on the track, in their original order. */
  function KeepOnTrack(os: seq<ObstacleState>, trackLength: int): (r: seq<ObstacleState>)
    ensures |r| <= |os|
    ensures forall i :: 0 <= i < |r| ==> !r[i].IsOffTrack(trackLength)
  {
    if os == [] then []
    else
      var kept := KeepOnTrack(os[..|os| - 1], trackLength);
      var last := os[|os| - 1];
      if last.IsOffTrack(trackLength) then kept else kept + [last]
  }

  /** No kept obstacle is off the track, each comes from the input, and every state on the track is among those kept. */
  lemma {:induction false} KeepOnTrackFilters(os: seq<ObstacleState>, trackLength: int)
    ensures forall x :: x in KeepOnTrack(os, trackLength) ==> x in os && !x.IsOffTrack(trackLength)
    ensures forall i :: 0 <= i < |os| && !os[i].IsOffTrack(trackLength) ==> os[i] in KeepOnTrack(os, trackLength)
  {
    if os != [] {
      var init, last := os[..|os| - 1], os[|os| - 1];
      KeepOnTrackFilters(init, trackLength);
      var kept, r := KeepOnTrack(init, trackLength), KeepOnTrack(os, trackLength);
      assert os == init + [last];
      assert r == if last.IsOffTrack(trackLength) then kept else kept + [last];
      forall i | 0 <= i < |os| && !os[i].IsOffTrack(trackLength)
        ensures os[i] in r
      {
        if i < |init| {
          assert os[i] == init[i];
        }
      }
    }
  }

  /** One obstacle is kept for each position of the input that is on the track. */
  lemma {:induction false} KeepOnTrackCount(os: seq<ObstacleState>, trackLength: int)
    ensures |KeepOnTrack(os, trackLength)| == |set i | 0 <= i < |os| && !os[i].IsOffTrack(trackLength)|
  {
    if os != [] {
      var n := |os| - 1;
      var init := os[..n];
      KeepOnTrackCount(init, trackLength);
      var before := set i | 0 <= i < n && !init[i].IsOffTrack(trackLength);
      var all := set i | 0 <= i < |os| && !os[i].IsOffTrack(trackLength);
      if os[n].IsOffTrack(trackLength) {
        assert all == before;
      } else {
        assert all == before + {n};
      }
    }
  }

  /** The obstacles that stay keep their relative order. */
  lemma {:induction false} KeepOnTrackKeepsOrder(os: seq<ObstacleState>, trackLength: int)
    ensures IsSubsequence(KeepOnTrack(os, trackLength), os)
  {
    if os != [] {
      var init := os[..|os| - 1];
      KeepOnTrackKeepsOrder(init, trackLength);
      SubsequenceGrows(KeepOnTrack(init, trackLength), init, os[|os| - 1]);
      assert init + [os[|os| - 1]] == os;
    }
  }

  /** `update_obstacles`: move every obstacle, then drop those off the track. */
  function ObstaclesUpdated(os: seq<ObstacleState>, trackLength: int): (r: seq<ObstacleState>)
    ensures |r| <= |os|
    ensures forall i :: 0 <= i < |r| ==> !r[i].IsOffTrack(trackLength)
  {
    KeepOnTrack(seq(|os|, i requires 0 <= i < |os| => os[i].Update()), trackLength)
  }

  /** `spawn_obstacle`: with chance `ObstacleSpawnRate`, one new obstacle at position 0. */
  function Spawned(os: seq<ObstacleState>, spawnRoll: real, d: ObstacleDraws): (r: seq<ObstacleState>)
    requires d.InRange()
    ensures |os| <= |r| <= |os| + 1 && r[..|os|] == os
    ensures |r| == |os| + 1 <==> spawnRoll < ObstacleSpawnRate
    ensures |r| == |os| + 1 ==> r[|os|].position == 0.0 && r[|os|].WellFormed() && 0 <= r[|os|].lane < NumLanes
  {
    if spawnRoll < ObstacleSpawnRate then os + [RandomObstacle(0.0, d)] else os
  }

  /** `check_collisions` on states: every active car that hits an obstacle crashes. */
  function Collided(cs: seq<CarState>, os: seq<ObstacleState>): (r: seq<CarState>)
    ensures |r| == |cs|
  {
    seq(|cs|, i requires 0 <= i < |cs| => cs[i].CheckedAgainst(os))
  }

  /** Exactly the cars that collide crash (at half speed, in place); every other car is left as it was. */
  lemma CollisionsCrashExactlyColliders(cs: seq<CarState>, os: seq<ObstacleState>)
    ensures var r := Collided(cs, os);
      && |r| == |cs|
      && (forall i :: 0 <= i < |cs| ==> (r[i] != cs[i] <==> cs[i].Collides(os)))
      && (forall i :: 0 <= i < |cs| && cs[i].Collides(os) ==>
            r[i].status == Crashed && r[i] == cs[i].Crash())
  {
  }

  /** The ids `check_collisions` returns: those of the cars that crash. */
  function CollidedIds(cs: seq<CarState>, os: seq<ObstacleState>): (ids: set<int>)
    ensures forall id :: id in ids <==> exists i :: 0 <= i < |cs| && cs[i].Collides(os) && cs[i].id == id
  {
    if cs == [] then {}
    else
      var last := cs[|cs| - 1];
      CollidedIds(cs[..|cs| - 1], os) + (if last.Collides(os) then {last.id} else {})
  }

  /** The index of the first finished car, as `next(...)` finds it. */
  function FirstFinished(cs: seq<CarState>): (r: Option<nat>)
    ensures r.Some? ==> r.value < |cs| && cs[r.value].status == Status.Finished
    ensures r.Some? ==> forall j :: 0 <= j < r.value ==> cs[j].status != Status.Finished
    ensures r.None? <==> forall j :: 0 <= j < |cs| ==> cs[j].status != Status.Finished
  {
    if cs == [] then None
    else if cs[0].status == Status.Finished then Some(0)
    else match FirstFinished(cs[1..])
      case None => None
      case Some(k) => Some(k + 1)
  }

  /** What `check_win_condition` decides. */
  datatype Outcome = Won(winner: nat) | AllCrashed | Undecided

  function WinOutcome(cs: seq<CarState>): (o: Outcome)
    ensures o.Won? <==> exists i :: 0 <= i < |cs| && cs[i].status == Status.Finished
    ensures o.Won? ==> o.winner < |cs| && cs[o.winner].status == Status.Finished
    ensures o.Won? ==> forall j :: 0 <= j < o.winner ==> cs[j].status != Status.Finished
    ensures o == AllCrashed <==> forall i :: 0 <= i < |cs| ==> cs[i].status == Crashed
    ensures o == Undecided <==>
      (forall i :: 0 <= i < |cs| ==> cs[i].status != Status.Finished) && exists i :: 0 <= i < |cs| && cs[i].status == Active
  {
    match FirstFinished(cs)
    case Some(k) => Won(k)
    case None =>
      if forall i :: 0 <= i < |cs| ==> cs[i].status == Crashed then AllCrashed else Undecided
  }

  datatype TickResult = TickResult(cars: seq<CarState>, obstacles: seq<ObstacleState>, outcome: Outcome)

  /** One running `update`: cars, obstacles, spawn, collisions, win check, in that order. */
  function Tick(cs: seq<CarState>, os: seq<ObstacleState>, ctrls: seq<RandomController>, d: TickDraws, trackLength: int): (r: TickResult)
    requires |ctrls| == |cs| && d.Fits(|cs|)
    ensures |r.cars| == |cs| && forall i :: 0 <= i < |cs| ==> r.cars[i].id == cs[i].id
    ensures |r.obstacles| <= |os| + 1
  {
    var moved := CarsUpdated(cs, ctrls, d.decisions);
    var obstacles := Spawned(ObstaclesUpdated(os, trackLength), d.spawnRoll, d.obstacle);
    var after := Collided(moved, obstacles);
    TickResult(after, obstacles, WinOutcome(after))
  }

  // ---------------------------------------------------------------------------
  // What a tick preserves
  // ---------------------------------------------------------------------------

  /** Cars as `initialize` makes them and ticks keep them: id equals list index, state well formed. */
  predicate WellFormedCars(cs: seq<CarState>) {
    forall i :: 0 <= i < |cs| ==> cs[i].id == i && cs[i].WellFormed()
  }

  /** Obstacles in a lane, on the track, with a speed that fits their kind. */
  predicate WellFormedObstacles(os: seq<ObstacleState>) {
    forall i :: 0 <= i < |os| ==> os[i].WellFormed() && 0 <= os[i].lane < NumLanes && !os[i].IsOffTrack(TrackLength)
  }

  /** A crashed or finished car is left exactly as it was by a tick. */
  lemma TickFreezesStoppedCars(cs: seq<CarState>, os: seq<ObstacleState>, ctrls: seq<RandomController>, d: TickDraws, trackLength: int)
    requires |ctrls| == |cs| && d.Fits(|cs|)
    ensures var r := Tick(cs, os, ctrls, d, trackLength);
      forall i :: 0 <= i < |cs| && cs[i].status != Active ==> r.cars[i] == cs[i]
  {
  }

  /** No tick makes a crashed or finished car active again. */
  lemma TickNeverReactivates(cs: seq<CarState>, os: seq<ObstacleState>, ctrls: seq<RandomController>, d: TickDraws, trackLength: int)
    requires |ctrls| == |cs| && d.Fits(|cs|)
    ensures var r := Tick(cs, os, ctrls, d, trackLength);
      forall i :: 0 <= i < |cs| && r.cars[i].status == Active ==> cs[i].status == Active
  {
  }

  /** A tick keeps cars and obstacles well formed, and no car moves backwards. */
  lemma TickPreservesWellFormed(cs: seq<CarState>, os: seq<ObstacleState>, ctrls: seq<RandomController>, d: TickDraws)
    requires |ctrls| == |cs| && d.Fits(|cs|)
    requires WellFormedCars(cs) && WellFormedObstacles(os)
    ensures var r := Tick(cs, os, ctrls, d, TrackLength);
      && WellFormedCars(r.cars)
      && WellFormedObstacles(r.obstacles)
      && forall i :: 0 <= i < |cs| ==> r.cars[i].position >= cs[i].position
  {
    var moved := CarsUpdated(cs, ctrls, d.decisions);
    forall i | 0 <= i < |cs|
      ensures moved[i].id == i && moved[i].WellFormed() && moved[i].position >= cs[i].position
    {
      UpdateKeepsWellFormed(cs[i], ctrls[i].DecideAction(cs[i], d.decisions[i]));
    }
    var advanced := seq(|os|, i requires 0 <= i < |os| => os[i].Update());
    var kept := KeepOnTrack(advanced, TrackLength);
    var obstacles := Spawned(kept, d.spawnRoll, d.obstacle);
    KeepOnTrackFilters(advanced, TrackLength);
    assert WellFormedObstacles(kept);
    var after := Collided(moved, obstacles);
    forall i | 0 <= i < |cs|
      ensures after[i].id == i && after[i].WellFormed() && after[i].position >= cs[i].position
    {
      if moved[i].Collides(obstacles) {
        CrashKeepsWellFormed(moved[i]);
      }
    }
  }

  /** The winner is the finished car with the lowest id when ids ascend along the list. */
  lemma WinnerHasLowestFinishedId(cs: seq<CarState>)
    requires forall i, j :: 0 <= i < j < |cs| ==> cs[i].id < cs[j].id
    requires WinOutcome(cs).Won?
    ensures var k := WinOutcome(cs).winner;
      forall j :: 0 <= j < |cs| && cs[j].status == Status.Finished ==> cs[k].id <= cs[j].id
  {
  }

  // ---------------------------------------------------------------------------
  // Status counts
  // ---------------------------------------------------------------------------

  /** `sum(1 for car in cars if car.status == status)`. */
  function CountStatus(cs: seq<CarState>, status: Status): (n: nat)
    ensures n <= |cs|
  {
    if cs == [] then 0
    else CountStatus(cs[..|cs| - 1], status) + (if cs[|cs| - 1].status == status then 1 else 0)
  }

  /** Every car has exactly one of the three statuses. */
  lemma {:induction false} StatusCountsAddUp(cs: seq<CarState>)
    ensures CountStatus(cs, Active) + CountStatus(cs, Crashed) + CountStatus(cs, Status.Finished) == |cs|
  {
    if cs != [] {
      StatusCountsAddUp(cs[..|cs| - 1]);
    }
  }

  /** The count is the number of list positions holding a car with that status. */
  lemma {:induction false} CountIsNumberOfCars(cs: seq<CarState>, status: Status)
    ensures CountStatus(cs, status) == |set i | 0 <= i < |cs| && cs[i].status == status|
  {
    if cs != [] {
      var n := |cs| - 1;
      var init := cs[..n];
      CountIsNumberOfCars(init, status);
      var before := set i | 0 <= i < n && init[i].status == status;
      var all := set i | 0 <= i < |cs| && cs[i].status == status;
      if cs[n].status == status {
        assert all == before + {n};
      } else {
        assert all == before;
      }
    }
  }

  /** The states the controllers draw on, one per car. */
  function ControllersOf(cs: seq<Car>): (r: seq<RandomController>)
    ensures |r| == |cs| && forall i :: 0 <= i < |cs| ==> r[i] == cs[i].controller
  {
    seq(|cs|, i requires 0 <= i < |cs| => cs[i].controller)
  }

  /** Index of the first car with id `carId`, as `next(...)` searches. */
  function FirstWithId(cs: seq<Car>, carId: int): (r: Option<nat>)
    ensures r.Some? ==> r.value < |cs| && cs[r.value].id == carId
    ensures r.Some? ==> forall j :: 0 <= j < r.value ==> cs[j].id != carId
    ensures r.None? <==> forall j :: 0 <= j < |cs| ==> cs[j].id != carId
  {
    if cs == [] then None
    else if cs[0].id == carId then Some(0)
    else match FirstWithId(cs[1..], carId)
      case None => None
      case Some(k) => Some(k + 1)
  }

  /** What `get_stats` reports; the winner is given by its id. */
  datatype Stats = Stats(
    tick: int,
    activeCars: nat,
    crashedCars: nat,
    finishedCars: nat,
    obstacleCount: nat,
    gameState: GameState,
    winnerId: Option<int>)

  /** The list comprehension of `update_obstacles`: the obstacles not off the track, in order. */
  method OnTrack(os: seq<Obstacle>, trackLength: int) returns (kept: seq<Obstacle>)
    ensures ObstacleStates(kept) == KeepOnTrack(ObstacleStates(os), trackLength)
    ensures forall x :: x in kept ==> x in os
    ensures Distinct(os) ==> Distinct(kept)
  {
    ghost var states := ObstacleStates(os);
    kept := [];
    for i := 0 to |os|
      invariant ObstacleStates(kept) == KeepOnTrack(states[..i], trackLength)
      invariant forall x :: x in kept ==> x in os[..i]
      invariant Distinct(os) ==> Distinct(kept)
    {
      var o := os[i];
      assert states[..i + 1][..i] == states[..i];
      assert forall x :: x in os[..i] ==> x in os[..i + 1];
      if !o.IsOffTrack(trackLength) {
        ObstacleStatesAppend(kept, o);
        if Distinct(os) {
          DistinctAt(os, i);
          assert o !in os[..i];
          DistinctAppend(kept, o);
        }
        kept := kept + [o];
      }
    }
    assert states[..|os|] == states;
    assert os[..|os|] == os;
  }

  // ---------------------------------------------------------------------------
  // The game object
  // ---------------------------------------------------------------------------

  class Game {
    var cars: seq<Car>
    var obstacles: seq<Obstacle>
    const trackLength: int := TrackLength
    var tick: int
    var gameState: GameState
    var winner: Car?

    /** Each car and each obstacle is a separate object. */
    ghost predicate Valid()
      reads this
    {
      Distinct(cars) && Distinct(obstacles)
    }

    /** How a win check's outcome shows in the fields, given the state and winner before it. */
    ghost predicate Decided(o: Outcome, previousState: GameState, previousWinner: Car?)
      reads this
    {
      match o
      case Won(k) => k < |cars| && winner == cars[k] && gameState == GameState.Finished
      case AllCrashed => winner == null && gameState == GameState.Finished
      case Undecided => winner == previousWinner && gameState == previousState
    }

    constructor ()
      ensures Valid()
      ensures cars == [] && obstacles == [] && tick == 0
      ensures gameState == Initialized && winner == null
    {
      cars := [];
      obstacles := [];
      tick := 0;
      gameState := Initialized;
      winner := null;
    }

    /** Four new cars, car i in lane i, each with a default random controller; the game runs. */
    method Initialize(speedRolls: seq<real>)
      requires Valid()
      requires |speedRolls| == |StartingLanes|
      requires forall i :: 0 <= i < |speedRolls| ==> 0.0 <= speedRolls[i] < 1.0
      modifies this`cars, this`gameState
      ensures Valid()
      ensures gameState == Running
      ensures |cars| == |StartingLanes|
      ensures forall i :: 0 <= i < |cars| ==> fresh(cars[i])
      ensures forall i :: 0 <= i < |cars| ==>
        cars[i].GetState() == CarState(i, i, 0.0, StartingSpeed(speedRolls[i]), Active)
      ensures forall i :: 0 <= i < |cars| ==> cars[i].controller.laneChangeChance == DefaultLaneChangeChance
      ensures WellFormedCars(CarStates(cars))
    {
      var created: seq<Car> := [];
      for k := 0 to |StartingLanes|
        invariant |created| == k
        invariant Distinct(created)
        invariant forall i :: 0 <= i < k ==> fresh(created[i])
        invariant forall i :: 0 <= i < k ==>
          created[i].GetState() == CarState(i, i, 0.0, StartingSpeed(speedRolls[i]), Active)
        invariant forall i :: 0 <= i < k ==> created[i].controller.laneChangeChance == DefaultLaneChangeChance
      {
        var lane := StartingLanes[k];
        var car := new Car(lane, lane, RandomController(DefaultLaneChangeChance), speedRolls[k]);
        DistinctAppend(created, car);
        created := created + [car];
      }
      cars := created;
      gameState := Running;
    }

    predicate IsRunning()
      reads this
      ensures IsRunning() <==> gameState == Running
    {
      gameState == Running
    }

    /** Move every obstacle, then keep those still on the track, in order. */
    method UpdateObstacles()
      requires Valid()
      modifies this`obstacles, obstacles
      ensures Valid()
      ensures ObstacleStates(obstacles) == ObstaclesUpdated(old(ObstacleStates(obstacles)), trackLength)
      ensures forall o :: o in obstacles ==> o in old(obstacles)
      ensures CarStates(cars) == old(CarStates(cars))
    {
      var os := obstacles;
      ghost var before := ObstacleStates(os);
      for i := 0 to |os|
        modifies os
        invariant forall j :: 0 <= j < i ==> os[j].State() == before[j].Update()
        invariant forall j :: i <= j < |os| ==> os[j].State() == before[j]
      {
        DistinctAt(os, i);
        os[i].Update();
      }
      assert ObstacleStates(os) == seq(|before|, i requires 0 <= i < |before| => before[i].Update());
      obstacles := OnTrack(os, trackLength);
    }

    /** With chance `ObstacleSpawnRate`, append one new random obstacle at position 0. */
    method SpawnObstacle(spawnRoll: real, d: ObstacleDraws)
      requires Valid() && 0.0 <= spawnRoll < 1.0 && d.InRange()
      modifies this`obstacles
      ensures Valid()
      ensures ObstacleStates(obstacles) == Spawned(old(ObstacleStates(obstacles)), spawnRoll, d)
      ensures |old(obstacles)| <= |obstacles| && obstacles[..|old(obstacles)|] == old(obstacles)
      ensures CarStates(cars) == old(CarStates(cars))
    {
      if spawnRoll < ObstacleSpawnRate {
        var o := Obstacle.CreateRandom(0.0, d);
        DistinctAppend(obstacles, o);
        obstacles := obstacles + [o];
      }
    }

    /** Crash every active car that hits an obstacle; return their ids. */
    method CheckCollisions() returns (collided: set<int>)
      requires Valid()
      modifies cars
      ensures CarStates(cars) == Collided(old(CarStates(cars)), ObstacleStates(obstacles))
      ensures collided == CollidedIds(old(CarStates(cars)), ObstacleStates(obstacles))
      ensures ObstacleStates(obstacles) == old(ObstacleStates(obstacles))
    {
      ghost var before := CarStates(cars);
      ghost var os := ObstacleStates(obstacles);
      collided := {};
      for i := 0 to |cars|
        invariant forall j :: 0 <= j < i ==> cars[j].GetState() == before[j].CheckedAgainst(os)
        invariant forall j :: i <= j < |cars| ==> cars[j].GetState() == before[j]
        invariant collided == CollidedIds(before[..i], os)
        invariant ObstacleStates(obstacles) == os
      {
        assert before[..i + 1][..i] == before[..i];
        DistinctAt(cars, i);
        var car := cars[i];
        var hit := CheckCar(car);
        if hit {
          collided := collided + {car.id};
        }
      }
      assert before[..|cars|] == before;
    }

    /** The body of the collision scan for one car: crash it when it is active and hits an obstacle. */
    method CheckCar(car: Car) returns (hit: bool)
      modifies car
      ensures hit <==> old(car.GetState()).Collides(ObstacleStates(obstacles))
      ensures car.GetState() == old(car.GetState()).CheckedAgainst(ObstacleStates(obstacles))
      ensures ObstacleStates(obstacles) == old(ObstacleStates(obstacles))
    {
      hit := car.status == Active && car.CheckCollision(obstacles);
      if hit {
        car.Crash();
      }
    }

    /** The first finished car wins; with none finished and all crashed, the game ends without a winner. */
    method CheckWinCondition()
      modifies this`winner, this`gameState
      ensures Decided(WinOutcome(CarStates(cars)), old(gameState), old(winner))
      ensures CarStates(cars) == old(CarStates(cars))
      ensures ObstacleStates(obstacles) == old(ObstacleStates(obstacles))
    {
      var k := 0;
      while k < |cars| && cars[k].status != Status.Finished
        invariant 0 <= k <= |cars|
        invariant forall j :: 0 <= j < k ==> cars[j].status != Status.Finished
      {
        k := k + 1;
      }
      if k < |cars| {
        winner := cars[k];
        gameState := GameState.Finished;
        return;
      }
      var allCrashed := true;
      for i := 0 to |cars|
        invariant allCrashed <==> forall j :: 0 <= j < i ==> cars[j].status == Crashed
      {
        if cars[i].status != Crashed {
          allCrashed := false;
        }
      }
      if allCrashed {
        gameState := GameState.Finished;
        winner := null;
      }
    }

    /** Every car takes its turn with its own controller's decision, in list order. */
    method MoveCars(ds: seq<DecisionDraw>)
      requires Valid() && |ds| == |cars| && forall i :: 0 <= i < |ds| ==> ds[i].InRange()
      modifies cars
      ensures CarStates(cars) == CarsUpdated(old(CarStates(cars)), ControllersOf(cars), ds)
      ensures ObstacleStates(obstacles) == old(ObstacleStates(obstacles))
    {
      ghost var before := CarStates(cars);
      ghost var ctrls := ControllersOf(cars);
      for i := 0 to |cars|
        invariant forall j :: 0 <= j < i ==> cars[j].GetState() == CarsUpdated(before, ctrls, ds)[j]
        invariant forall j :: i <= j < |cars| ==> cars[j].GetState() == before[j]
      {
        DistinctAt(cars, i);
        cars[i].UpdateAsync(ds[i]);
      }
    }

    /** One tick; nothing at all happens unless the game is running. */
    method Update(d: TickDraws)
      requires Valid() && d.Fits(|cars|)
      modifies this, cars, obstacles
      ensures Valid()
      ensures cars == old(cars)
      ensures old(gameState) != Running ==>
        && obstacles == old(obstacles) && tick == old(tick)
        && gameState == old(gameState) && winner == old(winner)
        && CarStates(cars) == old(CarStates(cars))
        && ObstacleStates(obstacles) == old(ObstacleStates(obstacles))
      ensures old(gameState) == Running ==>
        var r := Tick(old(CarStates(cars)), old(ObstacleStates(obstacles)), ControllersOf(cars), d, trackLength);
        && CarStates(cars) == r.cars
        && ObstacleStates(obstacles) == r.obstacles
        && tick == old(tick) + 1
        && Decided(r.outcome, Running, old(winner))
    {
      if gameState != Running {
        return;
      }
      Advance(d);
      Conclude();
    }

    /** The first half of a tick: every car moves, then the obstacles move, then one may spawn. */
    method Advance(d: TickDraws)
      requires Valid() && d.Fits(|cars|)
      modifies this`obstacles, cars, obstacles
      ensures Valid()
      ensures CarStates(cars) == CarsUpdated(old(CarStates(cars)), ControllersOf(cars), d.decisions)
      ensures ObstacleStates(obstacles) == Spawned(ObstaclesUpdated(old(ObstacleStates(obstacles)), trackLength), d.spawnRoll, d.obstacle)
    {
      MoveCars(d.decisions);
      UpdateObstacles();
      SpawnObstacle(d.spawnRoll, d.obstacle);
    }

    /**
     * The second half of a tick: collisions, the win check, and the tick counter.
     * Neither check reads `tick`, so counting the tick first ends in the same state
     * as counting it last.
     */
    method Conclude()
      requires Valid()
      modifies this`winner, this`gameState, this`tick, cars
      ensures Valid()
      ensures CarStates(cars) == Collided(old(CarStates(cars)), ObstacleStates(obstacles))
      ensures ObstacleStates(obstacles) == old(ObstacleStates(obstacles))
      ensures Decided(WinOutcome(CarStates(cars)), old(gameState), old(winner))
      ensures tick == old(tick) + 1
    {
      tick := tick + 1;
      var _ := CheckCollisions();
      CheckWinCondition();
    }

    function GetOccupiedLanes(): (lanes: set<int>)
      reads this, cars
      ensures forall l :: l in lanes <==> exists i :: 0 <= i < |cars| && cars[i].status == Active && cars[i].lane == l
      ensures (forall i :: 0 <= i < |cars| ==> 0 <= cars[i].lane < NumLanes) ==> lanes <= AllLanes
    {
      set i | 0 <= i < |cars| && cars[i].status == Active :: cars[i].lane
    }

    function GetAvailableLanes(): (lanes: set<int>)
      reads this, cars
      ensures lanes <= AllLanes && lanes !! GetOccupiedLanes()
      ensures (forall i :: 0 <= i < |cars| ==> 0 <= cars[i].lane < NumLanes) ==> lanes + GetOccupiedLanes() == AllLanes
    {
      AllLanes - GetOccupiedLanes()
    }

    /** `sum(1 for car in self.cars if car.status == status)`: the number of cars with that status. */
    function CountCars(status: Status): (n: nat)
      reads this, cars
      ensures n == |set i | 0 <= i < |cars| && cars[i].status == status|
    {
      var cs := CarStates(cars);
      CountIsNumberOfCars(cs, status);
      assert (set i | 0 <= i < |cs| && cs[i].status == status) == (set i | 0 <= i < |cars| && cars[i].status == status);
      CountStatus(cs, status)
    }

    function GetActiveCarsCount(): (n: nat)
      reads this, cars
      ensures n == |set i | 0 <= i < |cars| && cars[i].status == Active|
    {
      CountCars(Active)
    }

    function GetStats(): (s: Stats)
      reads this, cars
      ensures s.activeCars == |set i | 0 <= i < |cars| && cars[i].status == Active|
      ensures s.crashedCars == |set i | 0 <= i < |cars| && cars[i].status == Crashed|
      ensures s.finishedCars == |set i | 0 <= i < |cars| && cars[i].status == Status.Finished|
      ensures s.activeCars + s.crashedCars + s.finishedCars == |cars|
      ensures s.activeCars == GetActiveCarsCount()
      ensures s.obstacleCount == |obstacles| && s.tick == tick && s.gameState == gameState
      ensures s.winnerId == if winner == null then None else Some(winner.id)
    {
      StatusCountsAddUp(CarStates(cars));
      Stats(tick, CountCars(Active), CountCars(Crashed), CountCars(Status.Finished),
            |obstacles|, gameState, if winner == null then None else Some(winner.id))
    }

    function GetCarStatusSummary(): (summary: map<Status, nat>)
      reads this, cars
      ensures summary.Keys == {Active, Crashed, Status.Finished}
      ensures forall status :: status in summary ==>
        summary[status] == |set i | 0 <= i < |cars| && cars[i].status == status|
      ensures summary[Active] == GetStats().activeCars == GetActiveCarsCount()
      ensures summary[Crashed] == GetStats().crashedCars
      ensures summary[Status.Finished] == GetStats().finishedCars
      ensures summary[Active] + summary[Crashed] + summary[Status.Finished] == |cars|
    {
      map[Active := CountCars(Active), Crashed := CountCars(Crashed), Status.Finished := CountCars(Status.Finished)]
    }

    /** The first car with this id, or null; every match arm of the source returns the car it found. */
    function GetCarById(carId: int): (car: Car?)
      reads this
      ensures car == null <==> forall i :: 0 <= i < |cars| ==> cars[i].id != carId
      ensures car != null ==>
        exists k :: 0 <= k < |cars| && cars[k] == car && car.id == carId && (forall j :: 0 <= j < k ==> cars[j].id != carId)
    {
      match FirstWithId(cars, carId)
      case None => null
      case Some(k) => cars[k]
    }
  }
}
