/**
 * Iterator helpers (python/src/utils/generators.py). A Python iterator is
 * modelled as a `Source`: either a finite list of items or an endless supply
 * given by its n-th item. Obstacle generators yield the state each new obstacle
 * is created with.
 */
module Generators {
  import opened Common
  import opened Obstacles

  datatype Source<T> = Finite(items: seq<T>) | Endless(next: nat -> T) {

    /** The source still has an i-th item (counting from 0). */
    predicate HasItem(i: nat) {
      Endless? || i < |items|
    }

    function ItemAt(i: nat): (item: T)
      requires HasItem(i)
    {
      if Endless? then next(i) else items[i]
    }

    /** How many of the first `n` items exist: all of them unless the source runs out. */
    function Available(n: int): (k: nat)
      ensures k <= Max(n, 0)
      ensures forall i: nat :: i < k ==> HasItem(i)
      ensures k < Max(n, 0) ==> !HasItem(k)
    {
      if Endless? then Max(n, 0) else Min(Max(n, 0), |items|)
    }
  }

  /**
   * `take(iterable, n)`: the loop pulls an item, stops once `n` items have
   * been yielded, and otherwise yields it. `out` is what is yielded, and
   * `consumed` how many items were pulled from the source: one more than
   * `out` whenever the source had an item left when the count was reached.
   */
  method Take<T>(source: Source<T>, n: int) returns (out: seq<T>, consumed: nat)
    ensures |out| == source.Available(n)
    ensures forall i :: 0 <= i < |out| ==> source.HasItem(i) && out[i] == source.ItemAt(i)
    ensures n <= 0 ==> out == []
    ensures consumed == if source.HasItem(|out|) then |out| + 1 else |out|
  {
    var count := 0;
    out := [];
    consumed := 0;
    while source.HasItem(consumed)
      invariant count == consumed == |out| <= Max(n, 0)
      invariant forall i :: 0 <= i < |out| ==> source.HasItem(i) && out[i] == source.ItemAt(i)
      decreases Max(n, 0) - count
    {
      var item := source.ItemAt(consumed);
      consumed := consumed + 1;
      if count >= n {
        break;
      }
      out := out + [item];
      count := count + 1;
    }
  }

  /** `obstacle_generator_n(count)`: one new obstacle at the top of the track per round of `range(count)`. */
  method ObstacleGeneratorN(count: int, draws: seq<ObstacleDraws>) returns (out: seq<ObstacleState>)
    requires |draws| >= count
    requires forall i :: 0 <= i < |draws| ==> draws[i].InRange()
    ensures |out| == Max(count, 0)
    ensures forall i :: 0 <= i < |out| ==> out[i] == RandomObstacle(0.0, draws[i])
    ensures forall i :: 0 <= i < |out| ==> out[i].position == 0.0 && out[i].WellFormed()
  {
    out := [];
    var k := 0;
    while k < count
      invariant |out| == Max(k, 0) && (k <= Max(count, 0))
      invariant forall i :: 0 <= i < |out| ==> out[i] == RandomObstacle(0.0, draws[i])
    {
      out := out + [RandomObstacle(0.0, draws[k])];
      k := k + 1;
    }
  }

  /** `obstacle_generator()`: an endless supply of new obstacles at the top of the track. */
  function ObstacleGenerator(draws: nat -> ObstacleDraws): (s: Source<ObstacleState>)
    requires forall i: nat :: draws(i).InRange()
    ensures s.Endless?
    ensures forall i: nat :: s.ItemAt(i) == RandomObstacle(0.0, draws(i))
  {
    Endless(i => RandomObstacle(0.0, draws(i)))
  }

  /** The docstring's use: `take(obstacle_generator(), 5)` gets exactly five obstacles. */
  method TakeFiveObstacles(draws: nat -> ObstacleDraws) returns (obstacles: seq<ObstacleState>)
    requires forall i: nat :: draws(i).InRange()
    ensures |obstacles| == 5
    ensures forall i :: 0 <= i < 5 ==> obstacles[i] == RandomObstacle(0.0, draws(i))
    ensures forall i :: 0 <= i < 5 ==> obstacles[i].position == 0.0
  {
    var consumed;
    obstacles, consumed := Take(ObstacleGenerator(draws), 5);
  }
}
