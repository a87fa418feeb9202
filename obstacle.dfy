/**
 * Obstacles (python/src/entities/obstacle.py): a static or moving hazard in
 * one lane. Only `position` is ever updated; lane, kind and speed are set by
 * the constructor and never reassigned, so they are `const` fields here.
 */
module Obstacles {
  import opened Common
  import opened Config

  datatype ObstacleKind = Static | Moving

  /** Chance that `create_random` makes a moving obstacle. */
  const MovingChance: real := 0.2

  /** A moving obstacle's speed is a draw in [0, 1) times this factor. */
  const MovingSpeedFactor: real := 0.5

  /** The random draws of one `create_random` call. */
  datatype ObstacleDraws = ObstacleDraws(lane: int, kindRoll: real, speedRoll: real) {
    /** `randint(0, NUM_LANES - 1)` is inclusive; the rolls come from `random.random()`. */
    predicate InRange() {
      0 <= lane <= NumLanes - 1 && 0.0 <= kindRoll < 1.0 && 0.0 <= speedRoll < 1.0
    }
  }

  /** The fields of an obstacle at one instant (what `to_dict` projects, without the symbol). */
  datatype ObstacleState = ObstacleState(lane: int, position: real, kind: ObstacleKind, speed: real) {

    /** Speed agrees with kind, as the constructor sets it. */
    predicate WellFormed() {
      && (kind == Static ==> speed == 0.0)
      && (kind == Moving ==> 0.0 <= speed < MovingSpeedFactor)
    }

    /** In lane `l` and less than one unit away from `p`. */
    predicate IsAt(p: real, l: int)
      ensures IsAt(p, l) <==> l == lane && position - 1.0 < p < position + 1.0
    {
      lane == l && Abs(position - p) < 1.0
    }

    /** Outside [0, trackLength]; both ends count as on the track. */
    predicate IsOffTrack(trackLength: int)
      ensures !IsOffTrack(trackLength) <==> 0.0 <= position <= trackLength as real
    {
      position < 0.0 || position > trackLength as real
    }

    /** One step of `update`: only a moving obstacle advances, by its own speed. */
    function Update(): (r: ObstacleState)
      ensures r.lane == lane && r.kind == kind && r.speed == speed
      ensures kind == Static ==> r.position == position
      ensures kind == Moving ==> r.position == position + speed
      ensures WellFormed() ==> r.WellFormed() && r.position >= position
    {
      if kind == Moving then this.(position := position + speed) else this
    }
  }

  /** The speed the constructor gives an obstacle of this kind. */
  function InitialSpeed(kind: ObstacleKind, speedRoll: real): (speed: real)
    ensures 0.0 <= speedRoll < 1.0 ==> (kind == Static ==> speed == 0.0) && (kind == Moving ==> 0.0 <= speed < MovingSpeedFactor)
  {
    if kind == Moving then speedRoll * MovingSpeedFactor else 0.0
  }

  /** The obstacle `create_random(position)` builds from its draws. */
  function RandomObstacle(position: real, d: ObstacleDraws): (o: ObstacleState)
    requires d.InRange()
    ensures o.position == position
    ensures 0 <= o.lane < NumLanes && o.lane == d.lane
    ensures o.kind == Moving <==> d.kindRoll < MovingChance
    ensures o.WellFormed()
  {
    var kind := if d.kindRoll < MovingChance then Moving else Static;
    ObstacleState(d.lane, position, kind, InitialSpeed(kind, d.speedRoll))
  }

  /** An obstacle always is at its own position and lane. */
  lemma IsAtOwnPlace(o: ObstacleState)
    ensures o.IsAt(o.position, o.lane)
  {
  }

  /** Both ends of a track of any length are on it. */
  lemma OffTrackBoundaries(o: ObstacleState, trackLength: int)
    requires trackLength >= 0
    ensures o.position == 0.0 ==> !o.IsOffTrack(trackLength)
    ensures o.position == trackLength as real ==> !o.IsOffTrack(trackLength)
  {
  }

  class Obstacle {
    const lane: int
    var position: real
    const kind: ObstacleKind
    const speed: real

    /** `Obstacle(lane, position, type)`; `speedRoll` is the draw a moving obstacle uses. */
    constructor (lane: int, position: real, kind: ObstacleKind, speedRoll: real)
      requires 0.0 <= speedRoll < 1.0
      ensures State() == ObstacleState(lane, position, kind, InitialSpeed(kind, speedRoll))
      ensures State().WellFormed()
    {
      this.lane := lane;
      this.position := position;
      this.kind := kind;
      this.speed := InitialSpeed(kind, speedRoll);
    }

    /** The obstacle's fields at this instant. */
    function State(): (s: ObstacleState)
      reads this
      ensures s.lane == lane && s.position == position && s.kind == kind && s.speed == speed
    {
      ObstacleState(lane, position, kind, speed)
    }

    method Update()
      modifies this`position
      ensures State() == old(State()).Update()
    {
      if kind == Moving {
        position := position + speed;
      }
    }

    predicate IsAt(p: real, l: int)
      reads this
      ensures IsAt(p, l) <==> l == lane && position - 1.0 < p < position + 1.0
    {
      State().IsAt(p, l)
    }

    predicate IsOffTrack(trackLength: int)
      reads this
      ensures IsOffTrack(trackLength) <==> position < 0.0 || position > trackLength as real
    {
      State().IsOffTrack(trackLength)
    }

    /** `Obstacle.create_random(position)`: a random lane and, one time in five, a moving obstacle. */
    static method CreateRandom(position: real, d: ObstacleDraws) returns (o: Obstacle)
      requires d.InRange()
      ensures fresh(o)
      ensures o.State() == RandomObstacle(position, d)
    {
      var kind := if d.kindRoll < MovingChance then Moving else Static;
      o := new Obstacle(d.lane, position, kind, d.speedRoll);
    }
  }

  /** The states of a list of obstacles, in order. */
  function ObstacleStates(os: seq<Obstacle>): (r: seq<ObstacleState>)
    reads os
    ensures |r| == |os|
    ensures forall i :: 0 <= i < |os| ==> r[i] == os[i].State()
  {
    seq(|os|, i reads os requires 0 <= i < |os| => os[i].State())
  }

  /** Python's `any(obstacle.is_at(p, l) for obstacle in os)`, scanned left to right. */
  predicate AnyObstacleAt(os: seq<Obstacle>, p: real, l: int)
    reads os
    ensures AnyObstacleAt(os, p, l) <==> exists i :: 0 <= i < |os| && os[i].IsAt(p, l)
  {
    |os| > 0 && (os[0].IsAt(p, l) || AnyObstacleAt(os[1..], p, l))
  }

  lemma ObstacleStatesAppend(os: seq<Obstacle>, o: Obstacle)
    ensures ObstacleStates(os + [o]) == ObstacleStates(os) + [o.State()]
  {
    assert (os + [o])[..|os|] == os;
  }
}
