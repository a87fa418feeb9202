/**
 * The random decision strategy (python/src/controllers/random.py).
 * The controller holds one number, fixed at construction, so it is a value;
 * each call to `random.random()` / `random.choice` becomes an explicit draw.
 */
module Controllers {

  /** A decision: stay in the lane, or change lane by `direction`. */
  datatype Action = Stay | LaneChange(direction: int)

  /** Chance of a lane change per tick when none is given. */
  const DefaultLaneChangeChance: real := 0.05

  /** The list `random.choice` picks the direction from. */
  const Directions: seq<int> := [-1, 1]

  /** The two random draws of one `decide_action` call. */
  datatype DecisionDraw = DecisionDraw(roll: real, pick: nat) {
    /** `roll` comes from `random.random()`, `pick` indexes `Directions`. */
    predicate InRange() {
      0.0 <= roll < 1.0 && pick < |Directions|
    }
  }

  /** What `get_config` reports. */
  datatype ControllerConfig = ControllerConfig(kind: string, laneChangeChance: real)

  datatype RandomController = RandomController(laneChangeChance: real) {

    /**
     * A lane change, left or right, with probability `laneChangeChance`;
     * otherwise stay. The car's state is accepted and ignored.
     */
    function DecideAction<S>(carState: S, d: DecisionDraw): (a: Action)
      requires d.InRange()
      ensures a == Stay || (a.LaneChange? && (a.direction == -1 || a.direction == 1))
      ensures a.LaneChange? <==> d.roll < laneChangeChance
      ensures laneChangeChance <= 0.0 ==> a == Stay
    {
      if d.roll < laneChangeChance then LaneChange(Directions[d.pick]) else Stay
    }

    function GetConfig(): (c: ControllerConfig)
      ensures c.kind == "random"
      ensures c == ControllerConfig(c.kind, laneChangeChance)
    {
      ControllerConfig("random", laneChangeChance)
    }
  }

  /** The decision is the same whatever car state it is shown. */
  lemma DecisionIgnoresCarState<S>(c: RandomController, s1: S, s2: S, d: DecisionDraw)
    requires d.InRange()
    ensures c.DecideAction(s1, d) == c.DecideAction(s2, d)
  {
  }

  /** With the default chance, a roll of 0.05 or more means staying. */
  lemma DefaultControllerMostlyStays(d: DecisionDraw)
    requires d.InRange() && d.roll >= 0.05
    ensures RandomController(DefaultLaneChangeChance).DecideAction(0, d) == Stay
  {
  }
}
