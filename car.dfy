/**
 * Cars (python/src/entities/car.py): a racing vehicle whose status goes from
 * active to crashed or finished and never back. The value `CarState` is what
 * `get_state` reports and carries the transition functions; `class Car` holds
 * the fields the source updates in place and proves each method against them.
 */
module Cars {
  import opened Common
  import opened Config
  import opened Controllers
  import opened Obstacles

  datatype Status = Active | Crashed | Finished

  /** Lowest and highest (exclusive) starting speed: `random() * 1.5 + 0.5`. */
  const MinSpeed: real := 0.5
  const MaxSpeed: real := 2.0

  function StartingSpeed(speedRoll: real): (speed: real)
    ensures 0.0 <= speedRoll < 1.0 ==> MinSpeed <= speed < MaxSpeed
  {
    speedRoll * 1.5 + MinSpeed
  }

  /** The car's state as `get_state` reports it. */
  datatype CarState = CarState(id: int, lane: int, position: real, speed: real, status: Status) {

    /** Lane on the track, position on the track, positive speed, finished only at the end. */
    predicate WellFormed() {
      && 0 <= lane < NumLanes
      && 0.0 <= position <= TrackLength as real
      && speed > 0.0
      && (status == Finished ==> position == TrackLength as real)
    }

    /** `move_down`: advance by `speed`, stopping at the finish line and finishing there. */
    function MoveDown(): (r: CarState)
      ensures status != Active ==> r == this
      ensures r.id == id && r.lane == lane && r.speed == speed
      ensures r.status == Active ==> status == Active
      ensures status == Active ==> r.position <= TrackLength as real
      ensures status == Active ==> (r.status == Finished <==> position + speed >= TrackLength as real)
      ensures status == Active ==> r.status != Crashed
      ensures r.status == Active ==> r.position == position + speed
      ensures status == Active && r.status == Finished ==> r.position == TrackLength as real
    {
      if status != Active then this
      else if position + speed >= TrackLength as real then
        this.(position := TrackLength as real, status := Finished)
      else
        this.(position := position + speed)
    }

    /** `switch_lane`: move by `direction` lanes when the target lane exists. */
    function SwitchLane(direction: int): (r: CarState)
      ensures r == this || r == this.(lane := lane + direction)
      ensures status != Active ==> r == this
      ensures status == Active && 0 <= lane + direction < NumLanes ==> r.lane == lane + direction
      ensures !(0 <= lane + direction < NumLanes) ==> r == this
      ensures 0 <= lane < NumLanes ==> 0 <= r.lane < NumLanes
    {
      if status != Active then this
      else
        var newLane := lane + direction;
        if 0 <= newLane < NumLanes then this.(lane := newLane) else this
    }

    /** `crash`: crashed, at half speed, in the same place. */
    function Crash(): (r: CarState)
      ensures r.status == Crashed
      ensures r.speed * 2.0 == speed
      ensures r.id == id && r.lane == lane && r.position == position
    {
      this.(status := Crashed, speed := speed * 0.5)
    }

    /** `update_async` once the decision is known: apply a lane change, then move. */
    function Update(a: Action): (r: CarState)
      ensures status != Active ==> r == this
      ensures a == Stay ==> r.lane == lane
      ensures a.LaneChange? ==> r == SwitchLane(a.direction).MoveDown()
      ensures a == Stay ==> r == MoveDown()
      ensures r.status == Active ==> status == Active
    {
      if status != Active then this
      else
        var turned := if a.LaneChange? then SwitchLane(a.direction) else this;
        turned.MoveDown()
    }

    /** The collision test of `check_collision`: active, and some obstacle at this lane and position. */
    predicate Collides(obstacles: seq<ObstacleState>) {
      status == Active && exists i :: 0 <= i < |obstacles| && obstacles[i].IsAt(position, lane)
    }

    /** The car after `check_collisions` looked at it: crashed if it collides, untouched otherwise. */
    function CheckedAgainst(obstacles: seq<ObstacleState>): CarState {
      if Collides(obstacles) then Crash() else this
    }
  }

  /** A transition from a well-formed state leads to a well-formed state. */
  lemma UpdateKeepsWellFormed(s: CarState, a: Action)
    requires s.WellFormed()
    ensures s.Update(a).WellFormed()
    ensures s.Update(a).position >= s.position
  {
  }

  /** Crashing keeps a well-formed state well formed (its speed stays positive). */
  lemma CrashKeepsWellFormed(s: CarState)
    requires s.WellFormed() && s.status == Active
    ensures s.Crash().WellFormed()
  {
  }

  /** `check_collision` never reports a collision against no obstacles. */
  lemma NoCollisionWithoutObstacles(s: CarState)
    ensures !s.Collides([])
  {
  }

  class Car {
    const id: int
    var lane: int
    var position: real
    var speed: real
    var status: Status
    const controller: RandomController

    /** `Car(id, lane, controller)`; `speedRoll` is the `random.random()` draw for its speed. */
    constructor (id: int, lane: int, controller: RandomController, speedRoll: real)
      requires 0.0 <= speedRoll < 1.0
      ensures GetState() == CarState(id, lane, 0.0, StartingSpeed(speedRoll), Active)
      ensures MinSpeed <= speed < MaxSpeed
      ensures this.controller == controller
    {
      this.id := id;
      this.lane := lane;
      this.position := 0.0;
      this.speed := StartingSpeed(speedRoll);
      this.status := Active;
      this.controller := controller;
    }

    /** `get_state`: a snapshot of the car's id, lane, position, speed and status. */
    function GetState(): (s: CarState)
      reads this
      ensures s.id == id && s.lane == lane && s.position == position && s.speed == speed && s.status == status
    {
      CarState(id, lane, position, speed, status)
    }

    method MoveDown()
      modifies this`position, this`status
      ensures GetState() == old(GetState()).MoveDown()
    {
      if status != Active {
        return;
      }
      position := position + speed;
      if position >= TrackLength as real {
        position := TrackLength as real;
        status := Finished;
      }
    }

    method SwitchLane(direction: int)
      modifies this`lane
      ensures GetState() == old(GetState()).SwitchLane(direction)
    {
      if status != Active {
        return;
      }
      var newLane := lane + direction;
      if 0 <= newLane < NumLanes {
        lane := newLane;
      }
    }

    /** Python's `any` over the obstacles, guarded by the status test. */
    predicate CheckCollision(obstacles: seq<Obstacle>)
      reads this, obstacles
      ensures CheckCollision(obstacles) <==> GetState().Collides(ObstacleStates(obstacles))
    {
      status == Active && AnyObstacleAt(obstacles, position, lane)
    }

    method Crash()
      modifies this`status, this`speed
      ensures GetState() == old(GetState()).Crash()
    {
      status := Crashed;
      speed := speed * 0.5;
    }

    /** Ask the controller, apply a lane change, then move; `d` holds the controller's draws. */
    method UpdateAsync(d: DecisionDraw)
      requires d.InRange()
      modifies this
      ensures GetState() == old(GetState()).Update(controller.DecideAction(old(GetState()), d))
    {
      if status != Active {
        return;
      }
      var action := controller.DecideAction(GetState(), d);
      if action.LaneChange? {
        SwitchLane(action.direction);
      }
      MoveDown();
    }
  }

  /** The states of a list of cars, in order. */
  function CarStates(cs: seq<Car>): (r: seq<CarState>)
    reads cs
    ensures |r| == |cs|
    ensures forall i :: 0 <= i < |cs| ==> r[i] == cs[i].GetState()
  {
    seq(|cs|, i reads cs requires 0 <= i < |cs| => cs[i].GetState())
  }
}
