/**
 * The per-fish motion state machine of aquarium.js, as pure functions on a
 * snapshot of the fields a `Fish` updates. The `Fish` class in module
 * Aquarium performs the same updates in place and is specified by these
 * functions.
 */
module FishMotion {

  /** The lowest y a fish may reach: a fixed pixel count, not the tank height. */
  const BottomY := 300
  /** Pixels a swim step moves sideways. */
  const SwimStride := 2
  /** Default `duration` of `behave`: calls per sub-behaviour cycle. */
  const BehaviorDuration := 100
  /** Height of the float oscillation, in steps of one pixel. */
  const FloatSpan := 10
  /** `x <= 3` counts as having reached the left wall. */
  const LeftWall := 3

  /** A swim sub-behaviour; `NoneChosen` is the empty name written when a cycle ends. */
  datatype Behavior = Upward | Downward | Straight | NoneChosen

  /** `behaviorChoices`, indexed by a random draw. */
  const Choices: seq<Behavior> := [Upward, Downward, Straight]

  /** The sub-behaviour counter (`swimBehaviors.behaviorTurn` and `behaviorChosen`). */
  datatype SwimBehaviors = SwimBehaviors(behaviorTurn: int, behaviorChosen: Behavior) {
    /** A running cycle always has a behaviour to dispatch to. */
    predicate Ready() {
      behaviorTurn != 0 ==> behaviorChosen != NoneChosen
    }

    /** The counter is 0 or lies in 2..100 between calls. */
    predicate InCycle() {
      behaviorTurn == 0 || 2 <= behaviorTurn <= BehaviorDuration
    }
  }

  /** The fields of a fish that its swim and float behaviours update. */
  datatype FishState = FishState(
    x: int, y: int, scaleX: int,
    floatPos: int, floatReverse: bool,
    swimReverse: bool,
    behaviors: SwimBehaviors)

  function Abs(n: int): int {
    if n < 0 then -n else n
  }

  /** The region the move primitives keep a fish in, for fixed tank dimensions. */
  predicate Inside(f: FishState, tankWidth: int, topOfWater: int) {
    0 <= f.x < tankWidth && topOfWater <= f.y < BottomY
  }

  /** Invariant of a fish between calls. */
  predicate Consistent(f: FishState) {
    && f.behaviors.Ready()
    && f.behaviors.InCycle()
    && 0 <= f.floatPos <= FloatSpan
    && f.scaleX == (if f.swimReverse then -1 else 1)
  }

  // ---------------------------------------------------------------------
  // Move primitives (`move.up`, `move.down`, `move.left`, `move.right`)

  /** Moves up only if the fish stays strictly below the water line. */
  function Up(f: FishState, pixels: int, topOfWater: int): (g: FishState)
    ensures g == f.(y := g.y)
    ensures f.y - pixels > topOfWater ==> g.y == f.y - pixels
    ensures f.y - pixels <= topOfWater ==> g == f
  {
    if f.y - pixels > topOfWater then f.(y := f.y - pixels) else f
  }

  /** Moves down only if the fish stays above y = 300. */
  function Down(f: FishState, pixels: int): (g: FishState)
    ensures g == f.(y := g.y)
    ensures f.y + pixels < BottomY ==> g.y == f.y + pixels
    ensures f.y + pixels >= BottomY ==> g == f
  {
    if f.y + pixels < BottomY then f.(y := f.y + pixels) else f
  }

  /** Moves left only if x stays non-negative. */
  function Left(f: FishState, pixels: int): (g: FishState)
    ensures g == f.(x := g.x)
    ensures f.x - pixels >= 0 ==> g.x == f.x - pixels
    ensures f.x - pixels < 0 ==> g == f
  {
    if f.x - pixels >= 0 then f.(x := f.x - pixels) else f
  }

  /** Moves right only if x stays below the tank width. */
  function Right(f: FishState, pixels: int, tankWidth: int): (g: FishState)
    ensures g == f.(x := g.x)
    ensures f.x + pixels < tankWidth ==> g.x == f.x + pixels
    ensures f.x + pixels >= tankWidth ==> g == f
  {
    if f.x + pixels < tankWidth then f.(x := f.x + pixels) else f
  }

  /** No move by a non-negative amount takes a fish out of the tank. */
  lemma MovesStayInside(f: FishState, pixels: int, tankWidth: int, topOfWater: int)
    requires Inside(f, tankWidth, topOfWater) && pixels >= 0
    ensures Inside(Up(f, pixels, topOfWater), tankWidth, topOfWater)
    ensures Inside(Down(f, pixels), tankWidth, topOfWater)
    ensures Inside(Left(f, pixels), tankWidth, topOfWater)
    ensures Inside(Right(f, pixels, tankWidth), tankWidth, topOfWater)
  {
  }

  // ---------------------------------------------------------------------
  // Placement (`initiateDimensions`)

  /** `floor(u * tankWidth)` for a random draw `u` in [0, 1): a column inside a tank of positive width. */
  function StartX(u: real, tankWidth: int): (x: int)
    requires 0.0 <= u < 1.0
    ensures tankWidth > 0 ==> 0 <= x < tankWidth
    ensures tankWidth == 0 ==> x == 0
  {
    var column := Scaled(u, tankWidth);
    assert tankWidth > 0 ==> 0 <= column.Floor < tankWidth by {
      if tankWidth > 0 {
        FloorBetween(column, 0, tankWidth);
      }
    }
    column.Floor
  }

  /**
   * `floor(v * (300 - topOfWater) + topOfWater)` for a random draw `v` in
   * [0, 1): a row between the water line and y = 300 whenever the water line
   * is above 300.
   */
  function StartY(v: real, topOfWater: int): (y: int)
    requires 0.0 <= v < 1.0
    ensures topOfWater < BottomY ==> topOfWater <= y < BottomY
    ensures topOfWater == BottomY ==> y == BottomY
  {
    var row := Scaled(v, BottomY - topOfWater) + topOfWater as real;
    assert topOfWater < BottomY ==> topOfWater <= row.Floor < BottomY by {
      if topOfWater < BottomY {
        FloorBetween(row, topOfWater, BottomY);
      }
    }
    row.Floor
  }

  /** A draw in [0, 1) times a whole size: below a positive size, 0 for size 0. */
  function Scaled(u: real, size: int): (r: real)
    requires 0.0 <= u < 1.0
    ensures size > 0 ==> 0.0 <= r < size as real
    ensures size == 0 ==> r == 0.0
  {
    assert size > 0 ==> (1.0 - u) * size as real > 0.0;
    u * size as real
  }

  /** Rounding down keeps a real between two whole bounds. */
  lemma FloorBetween(r: real, lo: int, hi: int)
    requires lo as real <= r < hi as real
    ensures lo <= r.Floor < hi
  {
  }

  /**
   * A freshly placed fish: random position, unmirrored, float counter at 0
   * and rising, swim direction to the right, sub-behaviour counter idle with
   * `straight` as its initial name.
   */
  function Spawned(u: real, v: real, tankWidth: int, topOfWater: int): (f: FishState)
    requires 0.0 <= u < 1.0 && 0.0 <= v < 1.0
    ensures Consistent(f)
    ensures tankWidth > 0 && topOfWater < BottomY ==> Inside(f, tankWidth, topOfWater)
    ensures f.x == StartX(u, tankWidth) && f.y == StartY(v, topOfWater)
    ensures f.scaleX == 1 && !f.swimReverse
    ensures f.floatPos == 0 && !f.floatReverse
    ensures f.behaviors == SwimBehaviors(0, Straight)
  {
    FishState(StartX(u, tankWidth), StartY(v, topOfWater), 1, 0, false, false, SwimBehaviors(0, Straight))
  }

  // ---------------------------------------------------------------------
  // Float

  /**
   * `float`: turn at the ends of the 0..10 band, then count one step and
   * try to move one pixel. The counter moves even when the move is refused.
   */
  function FloatStep(f: FishState, topOfWater: int): (g: FishState)
    ensures g.x == f.x && g.scaleX == f.scaleX && g.swimReverse == f.swimReverse && g.behaviors == f.behaviors
    ensures g.floatPos == f.floatPos + (if g.floatReverse then -1 else 1)
    ensures f.floatPos >= FloatSpan ==> g.floatReverse && g.floatPos == f.floatPos - 1
    ensures 0 < f.floatPos < FloatSpan ==> g.floatReverse == f.floatReverse
    ensures f.floatPos <= 0 ==> !g.floatReverse && g.floatPos == f.floatPos + 1
    ensures 0 <= f.floatPos <= FloatSpan ==> 0 <= g.floatPos <= FloatSpan
    ensures g.floatReverse ==> g.y == Up(f, 1, topOfWater).y
    ensures !g.floatReverse ==> g.y == Down(f, 1).y
  {
    var reverse :=
      if f.floatPos >= FloatSpan then true
      else if f.floatPos <= 0 then false
      else f.floatReverse;
    var f1 := f.(floatReverse := reverse);
    if reverse then Up(f1.(floatPos := f1.floatPos - 1), 1, topOfWater)
    else Down(f1.(floatPos := f1.floatPos + 1), 1)
  }

  /** `n` float steps in a row. */
  function FloatSteps(f: FishState, topOfWater: int, n: nat): FishState
    decreases n
  {
    if n == 0 then f else FloatStep(FloatSteps(f, topOfWater, n - 1), topOfWater)
  }

  /** The float counter after `n` steps from the bottom of the band: a triangle wave of period 20. */
  function Wave(n: nat): int {
    var m := n % 20;
    if m <= FloatSpan then m else 20 - m
  }

  /** Whether the counter is falling after `n` steps from the bottom of the band. */
  predicate Falling(n: nat) {
    var m := n % 20;
    m == 0 || m > FloatSpan
  }

  /** One float step moves the counter one place along the wave. */
  lemma FloatStepOnWave(f: FishState, topOfWater: int, n: nat)
    requires n >= 1 && f.floatPos == Wave(n) && f.floatReverse == Falling(n)
    ensures FloatStep(f, topOfWater).floatPos == Wave(n + 1)
    ensures FloatStep(f, topOfWater).floatReverse == Falling(n + 1)
  {
    var m := n % 20;
    assert (n + 1) % 20 == if m == 19 then 0 else m + 1;
  }

  /**
   * Starting at floatPos 0, the counter climbs to 10, falls back to 0 and
   * repeats every 20 steps; it is falling exactly in the second half of
   * each period.
   */
  lemma {:induction false} FloatOscillates(f: FishState, topOfWater: int, n: nat)
    requires f.floatPos == 0 && n >= 1
    ensures FloatSteps(f, topOfWater, n).floatPos == Wave(n)
    ensures FloatSteps(f, topOfWater, n).floatReverse == Falling(n)
    decreases n
  {
    if n > 1 {
      FloatOscillates(f, topOfWater, n - 1);
      FloatStepOnWave(FloatSteps(f, topOfWater, n - 1), topOfWater, n - 1);
    }
  }

  // ---------------------------------------------------------------------
  // Swim

  /**
   * The wall check of `swim`: at or past the right threshold the fish turns
   * left and mirrors; at or left of x = 3 it turns right and unmirrors; in
   * between nothing changes. The magnitude of `scaleX` is kept.
   */
  function TurnAtWalls(f: FishState, tankWidth: int, fishWidth: int): (g: FishState)
    ensures g == f.(swimReverse := g.swimReverse, scaleX := g.scaleX)
    ensures Abs(g.scaleX) == Abs(f.scaleX)
    ensures f.x >= tankWidth - fishWidth ==> g.swimReverse && g.scaleX == -Abs(f.scaleX)
    ensures LeftWall >= f.x && f.x < tankWidth - fishWidth ==> !g.swimReverse && g.scaleX == Abs(f.scaleX)
    ensures LeftWall < f.x < tankWidth - fishWidth ==> g == f
  {
    if f.x >= tankWidth - fishWidth then f.(swimReverse := true, scaleX := -Abs(f.scaleX))
    else if f.x <= LeftWall then f.(swimReverse := false, scaleX := Abs(f.scaleX))
    else f
  }

  /** The horizontal part of `swim`: turn at the walls, then stride in the current direction. */
  function Cruise(f: FishState, tankWidth: int, fishWidth: int): (g: FishState)
    ensures g == TurnAtWalls(f, tankWidth, fishWidth).(x := g.x)
    ensures g.swimReverse ==> g.x == (if f.x - SwimStride >= 0 then f.x - SwimStride else f.x)
    ensures !g.swimReverse ==> g.x == (if f.x + SwimStride < tankWidth then f.x + SwimStride else f.x)
  {
    var f1 := TurnAtWalls(f, tankWidth, fishWidth);
    if f1.swimReverse then Left(f1, SwimStride) else Right(f1, SwimStride, tankWidth)
  }

  /** A random draw in [0, 1) scaled to an index of `Choices`. */
  function ChoiceIndex(u: real): (i: int)
    requires 0.0 <= u < 1.0
    ensures 0 <= i < |Choices|
  {
    (u * 3.0).Floor
  }

  /** Starts a new cycle when the counter is at 0. */
  function Select(b: SwimBehaviors, choice: int): (r: SwimBehaviors)
    requires 0 <= choice < |Choices|
    ensures b.behaviorTurn == 0 ==> r.behaviorTurn == 1 && r.behaviorChosen == Choices[choice]
    ensures b.behaviorTurn != 0 ==> r == b
    ensures r.behaviorTurn != 0 && (b.Ready() ==> r.behaviorChosen != NoneChosen)
  {
    if b.behaviorTurn == 0 then SwimBehaviors(1, Choices[choice]) else b
  }

  /** The per-call action of a sub-behaviour. */
  function Act(f: FishState, action: Behavior, topOfWater: int): (g: FishState)
    ensures g == f.(y := g.y)
    ensures action == Upward ==> g.y == (if f.y - 1 > topOfWater then f.y - 1 else f.y)
    ensures action == Downward ==> g.y == (if f.y + 1 < BottomY then f.y + 1 else f.y)
    ensures action == Straight || action == NoneChosen ==> g == f
  {
    match action
    case Upward => Up(f, 1, topOfWater)
    case Downward => Down(f, 1)
    case _ => f
  }

  /**
   * `behave`: while the counter is strictly between 0 and `duration`,
   * count and run the action; otherwise end the cycle.
   */
  function Behave(f: FishState, action: Behavior, topOfWater: int, duration: int := BehaviorDuration): (g: FishState)
    ensures var b := f.behaviors;
      0 < b.behaviorTurn < duration ==>
        g.behaviors == b.(behaviorTurn := b.behaviorTurn + 1)
        && g == Act(f, action, topOfWater).(behaviors := g.behaviors)
    ensures !(0 < f.behaviors.behaviorTurn < duration) ==>
      g == f.(behaviors := SwimBehaviors(0, NoneChosen))
  {
    var b := f.behaviors;
    if 0 < b.behaviorTurn < duration then
      Act(f.(behaviors := b.(behaviorTurn := b.behaviorTurn + 1)), action, topOfWater)
    else
      f.(behaviors := SwimBehaviors(0, NoneChosen))
  }

  /** Whether a swim call with this counter runs the chosen action. */
  predicate Acts(b: SwimBehaviors) {
    0 <= b.behaviorTurn < BehaviorDuration
  }

  /**
   * The counter after one swim call: 0 goes to 2 with a freshly drawn
   * behaviour, k goes to k + 1 for 0 < k < 100, and anything else (100 in
   * a running fish) ends the cycle with the turn back at 0.
   */
  function NextBehaviors(b: SwimBehaviors, choice: int): (r: SwimBehaviors)
    requires 0 <= choice < |Choices|
    ensures r.InCycle()
    ensures b.Ready() ==> r.Ready()
    ensures b.behaviorTurn == 0 ==> r == SwimBehaviors(2, Choices[choice])
    ensures 0 < b.behaviorTurn < BehaviorDuration ==> r == b.(behaviorTurn := b.behaviorTurn + 1)
    ensures !Acts(b) ==> r == SwimBehaviors(0, NoneChosen)
  {
    var s := Select(b, choice);
    if 0 < s.behaviorTurn < BehaviorDuration then s.(behaviorTurn := s.behaviorTurn + 1)
    else SwimBehaviors(0, NoneChosen)
  }

  /**
   * `swim`: the horizontal cruise, then the sub-behaviour. The counter moves
   * as `NextBehaviors` says, and the chosen behaviour's action runs exactly
   * when `Acts` holds of the counter before the call.
   */
  function SwimStep(f: FishState, tankWidth: int, fishWidth: int, topOfWater: int, choice: int): (g: FishState)
    requires 0 <= choice < |Choices| && f.behaviors.Ready()
    ensures g.behaviors == NextBehaviors(f.behaviors, choice)
    ensures g.floatPos == f.floatPos && g.floatReverse == f.floatReverse
    ensures g.x == Cruise(f, tankWidth, fishWidth).x
    ensures g.swimReverse == TurnAtWalls(f, tankWidth, fishWidth).swimReverse
    ensures g.scaleX == TurnAtWalls(f, tankWidth, fishWidth).scaleX
    ensures Acts(f.behaviors) ==>
      g.y == Act(f, Select(f.behaviors, choice).behaviorChosen, topOfWater).y
    ensures !Acts(f.behaviors) ==> g.y == f.y
  {
    var f2 := Cruise(f, tankWidth, fishWidth);
    var f3 := f2.(behaviors := Select(f2.behaviors, choice));
    Behave(f3, f3.behaviors.behaviorChosen, topOfWater)
  }

  /**
   * Floating keeps a fish inside a tank whose dimensions do not change, and
   * keeps its float counter in the band.
   */
  lemma FloatPreserves(f: FishState, tankWidth: int, topOfWater: int)
    ensures Inside(f, tankWidth, topOfWater) ==> Inside(FloatStep(f, topOfWater), tankWidth, topOfWater)
    ensures Consistent(f) ==> Consistent(FloatStep(f, topOfWater))
  {
  }

  /**
   * Swimming keeps a fish inside a tank whose dimensions do not change,
   * keeps the sub-behaviour counter in its cycle and keeps the orientation
   * matched to the swim direction.
   */
  lemma SwimPreserves(f: FishState, tankWidth: int, fishWidth: int, topOfWater: int, choice: int)
    requires 0 <= choice < |Choices| && f.behaviors.Ready()
    ensures Inside(f, tankWidth, topOfWater) ==>
      Inside(SwimStep(f, tankWidth, fishWidth, topOfWater, choice), tankWidth, topOfWater)
    ensures Consistent(f) ==> Consistent(SwimStep(f, tankWidth, fishWidth, topOfWater, choice))
  {
  }

  /** Tank width 500, fish width 20, x = 495: the fish turns, mirrors and moves to 493. */
  lemma TurnAtRightWall(f: FishState, topOfWater: int, choice: int)
    requires f.x == 495 && f.scaleX == 1 && f.behaviors.Ready() && 0 <= choice < |Choices|
    ensures SwimStep(f, 500, 20, topOfWater, choice).swimReverse
    ensures SwimStep(f, 500, 20, topOfWater, choice).scaleX == -1
    ensures SwimStep(f, 500, 20, topOfWater, choice).x == 493
  {
  }

  // ---------------------------------------------------------------------
  // The 100-call sub-behaviour cycle

  /** The behaviours whose action runs, in order, over one swim call per draw. */
  function Actions(b: SwimBehaviors, choices: seq<int>): seq<Behavior>
    requires forall i :: 0 <= i < |choices| ==> 0 <= choices[i] < |Choices|
    decreases |choices|
  {
    if choices == [] then []
    else
      var here := if Acts(b) then [Select(b, choices[0]).behaviorChosen] else [];
      here + Actions(NextBehaviors(b, choices[0]), choices[1..])
  }

  /** The counter after one swim call per draw. */
  function After(b: SwimBehaviors, choices: seq<int>): SwimBehaviors
    requires forall i :: 0 <= i < |choices| ==> 0 <= choices[i] < |Choices|
    decreases |choices|
  {
    if choices == [] then b else After(NextBehaviors(b, choices[0]), choices[1..])
  }

  /**
   * From turn k in 2..100 with a chosen behaviour, the remaining calls of the
   * cycle run that behaviour's action 100 - k times and then end the cycle.
   */
  lemma {:induction false} Sustain(k: int, chosen: Behavior, choices: seq<int>)
    requires 2 <= k <= BehaviorDuration && chosen != NoneChosen
    requires |choices| == BehaviorDuration + 1 - k
    requires forall i :: 0 <= i < |choices| ==> 0 <= choices[i] < |Choices|
    ensures Actions(SwimBehaviors(k, chosen), choices) == seq(BehaviorDuration - k, _ => chosen)
    ensures After(SwimBehaviors(k, chosen), choices) == SwimBehaviors(0, NoneChosen)
    decreases BehaviorDuration - k
  {
    var b := SwimBehaviors(k, chosen);
    if k < BehaviorDuration {
      Sustain(k + 1, chosen, choices[1..]);
      assert NextBehaviors(b, choices[0]) == SwimBehaviors(k + 1, chosen);
      assert [chosen] + seq(BehaviorDuration - (k + 1), _ => chosen) == seq(BehaviorDuration - k, _ => chosen);
    } else {
      assert choices[1..] == [];
    }
  }

  /**
   * A cycle takes 100 swim calls from an idle counter: the first call draws
   * a behaviour, its action runs on 99 calls in a row, and the last call runs
   * nothing and leaves the counter idle with no behaviour chosen, ready for a
   * new independent draw.
   */
  lemma {:induction false} CycleOf100(b: SwimBehaviors, choices: seq<int>)
    requires b.behaviorTurn == 0 && |choices| == BehaviorDuration
    requires forall i :: 0 <= i < |choices| ==> 0 <= choices[i] < |Choices|
    ensures Actions(b, choices) == seq(BehaviorDuration - 1, _ => Choices[choices[0]])
    ensures After(b, choices) == SwimBehaviors(0, NoneChosen)
  {
    var chosen := Choices[choices[0]];
    Sustain(2, chosen, choices[1..]);
    assert [chosen] + seq(BehaviorDuration - 2, _ => chosen) == seq(BehaviorDuration - 1, _ => chosen);
  }

  /** One swim call per draw in `choices`, with the tank held fixed. */
  function SwimRun(f: FishState, tankWidth: int, fishWidth: int, topOfWater: int, choices: seq<int>): FishState
    requires f.behaviors.Ready()
    requires forall i :: 0 <= i < |choices| ==> 0 <= choices[i] < |Choices|
    decreases |choices|
  {
    if choices == [] then f
    else SwimRun(SwimStep(f, tankWidth, fishWidth, topOfWater, choices[0]), tankWidth, fishWidth, topOfWater, choices[1..])
  }

  /**
   * Over any number of swim calls the fish's sub-behaviour counter follows
   * `After`, whatever the walls and moves do, so `CycleOf100` describes a
   * swimming fish.
   */
  lemma {:induction false} SwimRunCounter(f: FishState, tankWidth: int, fishWidth: int, topOfWater: int, choices: seq<int>)
    requires f.behaviors.Ready()
    requires forall i :: 0 <= i < |choices| ==> 0 <= choices[i] < |Choices|
    ensures SwimRun(f, tankWidth, fishWidth, topOfWater, choices).behaviors == After(f.behaviors, choices)
    decreases |choices|
  {
    if choices != [] {
      var g := SwimStep(f, tankWidth, fishWidth, topOfWater, choices[0]);
      SwimRunCounter(g, tankWidth, fishWidth, topOfWater, choices[1..]);
    }
  }
}
