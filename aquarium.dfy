/**
 * Fishes and their tank (aquarium.js). A `Fish` keeps its position,
 * orientation, float counter and sub-behaviour counter in fields that its
 * methods update in place; each method is specified by the matching
 * function of module FishMotion. A fish owns two schedulers: one runs
 * `Swim` every 10 ms, the other `Float` every 100 ms. A `Tank` owns the
 * fishes and the dimensions they are confined to.
 *
 * Host values come in as parameters: `reading` is a clock reading in
 * milliseconds, `u` and `v` are draws of the uniform generator in [0, 1),
 * and widths and heights are measured element sizes in whole pixels.
 */
module Aquarium {
  import opened FishMotion
  import Scheduler

  /** Interval of a fish's float scheduler, in milliseconds. */
  const FloatInterval := 100

  /** What the tank is given per fish. */
  datatype FishSettings = FishSettings(name: string)

  /** Host values for placing one fish: two random draws and the measured size of its element. */
  datatype Spawn = Spawn(u: real, v: real, width: int, height: int)

  predicate ValidSpawn(s: Spawn) {
    0.0 <= s.u < 1.0 && 0.0 <= s.v < 1.0
  }

  /** `Math.floor(height * 0.10)` for a non-negative whole-pixel height. */
  function WaterLine(height: int): (top: int)
    requires height >= 0
    ensures 0 <= top && 10 * top <= height < 10 * (top + 1)
    ensures height > 0 ==> top < height
  {
    height / 10
  }

  class Fish {
    const tank: Tank
    const name: string
    const swimAnimation: Scheduler.Animation
    const floatAnimation: Scheduler.Animation
    var width: int
    var height: int
    var scaleX: int
    var scaleY: int
    var x: int
    var y: int
    var floatPos: int
    var floatReverse: bool
    var swimReverse: bool
    var behaviorTurn: int
    var behaviorChosen: Behavior
    /** Whether the speech bubble is shown; its text and styling are not modelled. */
    var bubbleShown: bool

    /** The fields the motion functions describe. */
    function State(): FishState
      reads this
    {
      FishState(x, y, scaleX, floatPos, floatReverse, swimReverse, SwimBehaviors(behaviorTurn, behaviorChosen))
    }

    /** The fish is inside its tank as the tank's dimensions stand now. */
    ghost predicate InTank()
      reads this, tank`width, tank`topOfWater
    {
      FishMotion.Inside(State(), tank.width, tank.topOfWater)
    }

    ghost predicate Valid()
      reads this, swimAnimation, floatAnimation
    {
      && swimAnimation != floatAnimation
      && swimAnimation.Valid() && floatAnimation.Valid()
      && swimAnimation.fpsInterval == Scheduler.DefaultInterval
      && floatAnimation.fpsInterval == FloatInterval
      && Consistent(State())
    }

    /**
     * Places the fish at a random point of the water, starts its swim
     * scheduler (10 ms) and its float scheduler (100 ms) at `reading`.
     */
    constructor (settings: FishSettings, tank: Tank, spawn: Spawn, reading: int)
      requires ValidSpawn(spawn)
      ensures Valid()
      ensures this.tank == tank && name == settings.name && !bubbleShown
      ensures width == spawn.width && height == spawn.height && scaleY == 1
      ensures State() == Spawned(spawn.u, spawn.v, tank.width, tank.topOfWater)
      ensures tank.width > 0 && tank.topOfWater < BottomY ==> InTank()
      ensures fresh(swimAnimation) && fresh(floatAnimation)
      ensures swimAnimation.State() == Scheduler.Clock(reading, false) && swimAnimation.pending == 1
      ensures floatAnimation.State() == Scheduler.Clock(reading, false) && floatAnimation.pending == 1
    {
      this.tank := tank;
      name := settings.name;
      swimAnimation := new Scheduler.Animation(reading);
      floatAnimation := new Scheduler.Animation(reading, FloatInterval);
      floatPos := 0;
      floatReverse, swimReverse := false, false;
      behaviorTurn, behaviorChosen := 0, Straight;
      bubbleShown := false;
      new;
      InitiateDimensions(spawn);
    }

    /** Random start position, measured size, unmirrored. */
    method InitiateDimensions(spawn: Spawn)
      requires ValidSpawn(spawn)
      modifies this`x, this`y, this`width, this`height, this`scaleX, this`scaleY
      ensures x == StartX(spawn.u, tank.width) && y == StartY(spawn.v, tank.topOfWater)
      ensures width == spawn.width && height == spawn.height && scaleX == 1 && scaleY == 1
    {
      var startX := StartX(spawn.u, tank.width);
      var startY := StartY(spawn.v, tank.topOfWater);
      TeleportTo(startX, startY);
      width, height := spawn.width, spawn.height;
      scaleX, scaleY := 1, 1;
    }

    method TeleportTo(x: int, y: int)
      modifies this`x, this`y
      ensures this.x == x && this.y == y
    {
      this.x := x;
      this.y := y;
    }

    method MoveUp(pixels: int)
      modifies this`y
      ensures State() == Up(old(State()), pixels, tank.topOfWater)
    {
      if y - pixels > tank.topOfWater {
        y := y - pixels;
      }
    }

    method MoveDown(pixels: int)
      modifies this`y
      ensures State() == Down(old(State()), pixels)
    {
      if y + pixels < BottomY {
        y := y + pixels;
      }
    }

    method MoveLeft(pixels: int)
      modifies this`x
      ensures State() == Left(old(State()), pixels)
    {
      if x - pixels >= 0 {
        x := x - pixels;
      }
    }

    method MoveRight(pixels: int)
      modifies this`x
      ensures State() == Right(old(State()), pixels, tank.width)
    {
      if x + pixels < tank.width {
        x := x + pixels;
      }
    }

    /** `float`: one step of the vertical oscillation. */
    method Float()
      modifies this`floatPos, this`floatReverse, this`y
      ensures State() == FloatStep(old(State()), tank.topOfWater)
      ensures Consistent(old(State())) ==> Consistent(State())
      ensures old(InTank()) ==> InTank()
    {
      FloatPreserves(State(), tank.width, tank.topOfWater);
      if floatPos >= FloatSpan {
        floatReverse := true;
      } else if floatPos <= 0 {
        floatReverse := false;
      }
      if floatReverse {
        floatPos := floatPos - 1;
        MoveUp(1);
      } else {
        floatPos := floatPos + 1;
        MoveDown(1);
      }
    }

    /**
     * `swim`: turn at the walls, stride sideways, then run one call of the
     * sub-behaviour; `u` is the draw used if a new behaviour is picked.
     */
    method Swim(u: real)
      requires 0.0 <= u < 1.0 && State().behaviors.Ready()
      modifies this`x, this`y, this`scaleX, this`swimReverse, this`behaviorTurn, this`behaviorChosen
      ensures State() == SwimStep(old(State()), tank.width, width, tank.topOfWater, ChoiceIndex(u))
      ensures Consistent(old(State())) ==> Consistent(State())
      ensures old(InTank()) ==> InTank()
    {
      SwimPreserves(State(), tank.width, width, tank.topOfWater, ChoiceIndex(u));
      CruiseSideways();
      PickBehavior(u);
      ghost var selected := State();
      assert SwimStep(old(State()), tank.width, width, tank.topOfWater, ChoiceIndex(u))
        == FishMotion.Behave(selected, behaviorChosen, tank.topOfWater);
      match behaviorChosen
      case Upward => SwimUpward();
      case Downward => SwimDownward();
      case Straight => SwimStraight();
      case NoneChosen => assert false;
    }

    /** The horizontal part of `swim`: the wall check, then the 2-pixel stride. */
    method CruiseSideways()
      modifies this`x, this`scaleX, this`swimReverse
      ensures State() == Cruise(old(State()), tank.width, width)
    {
      if x >= tank.width - width {
        swimReverse := true;
        scaleX := -Abs(scaleX);
      } else if x <= LeftWall {
        swimReverse := false;
        scaleX := Abs(scaleX);
      }
      if swimReverse {
        MoveLeft(SwimStride);
      } else {
        MoveRight(SwimStride);
      }
    }

    /** Draws a new sub-behaviour when the counter is at 0. */
    method PickBehavior(u: real)
      requires 0.0 <= u < 1.0
      modifies this`behaviorTurn, this`behaviorChosen
      ensures State() == old(State()).(behaviors := Select(old(State()).behaviors, ChoiceIndex(u)))
    {
      if behaviorTurn == 0 {
        var randomBehavior := ChoiceIndex(u);
        behaviorChosen := Choices[randomBehavior];
        behaviorTurn := 1;
      }
    }

    /** `behave`: count and run `action` while the cycle lasts, else end the cycle. */
    method Behave(action: Behavior, duration: int := BehaviorDuration)
      modifies this`y, this`behaviorTurn, this`behaviorChosen
      ensures State() == FishMotion.Behave(old(State()), action, tank.topOfWater, duration)
    {
      if behaviorTurn > 0 && behaviorTurn < duration {
        behaviorTurn := behaviorTurn + 1;
        match action
        case Upward => MoveUp(1);
        case Downward => MoveDown(1);
        case _ =>
      } else {
        behaviorChosen := NoneChosen;
        behaviorTurn := 0;
      }
    }

    /** `swimBehaviors.upward`. */
    method SwimUpward()
      modifies this`y, this`behaviorTurn, this`behaviorChosen
      ensures State() == FishMotion.Behave(old(State()), Upward, tank.topOfWater)
    {
      Behave(Upward);
    }

    /** `swimBehaviors.downward`. */
    method SwimDownward()
      modifies this`y, this`behaviorTurn, this`behaviorChosen
      ensures State() == FishMotion.Behave(old(State()), Downward, tank.topOfWater)
    {
      Behave(Downward);
    }

    /** `swimBehaviors.straight`. */
    method SwimStraight()
      modifies this`y, this`behaviorTurn, this`behaviorChosen
      ensures State() == FishMotion.Behave(old(State()), Straight, tank.topOfWater)
    {
      Behave(Straight);
    }

    /** The host delivers a frame to the swim scheduler, which swims if due. */
    method SwimFrame(reading: int, u: real) returns (swam: bool)
      requires Valid() && swimAnimation.pending > 0 && 0.0 <= u < 1.0
      modifies swimAnimation, this`x, this`y, this`scaleX, this`swimReverse, this`behaviorTurn, this`behaviorChosen
      ensures Valid() && unchanged(floatAnimation)
      ensures var t := Scheduler.AnimateStep(old(swimAnimation.State()), Scheduler.DefaultInterval, reading);
        swimAnimation.State() == t.clock && swam == t.fired
      ensures State() == if swam then SwimStep(old(State()), tank.width, width, tank.topOfWater, ChoiceIndex(u)) else old(State())
      ensures old(InTank()) ==> InTank()
    {
      swam := swimAnimation.OnFrame(reading);
      if swam {
        Swim(u);
      }
    }

    /** The host delivers a frame to the float scheduler, which floats if due. */
    method FloatFrame(reading: int) returns (floated: bool)
      requires Valid() && floatAnimation.pending > 0
      modifies floatAnimation, this`floatPos, this`floatReverse, this`y
      ensures Valid() && unchanged(swimAnimation)
      ensures var t := Scheduler.AnimateStep(old(floatAnimation.State()), FloatInterval, reading);
        floatAnimation.State() == t.clock && floated == t.fired
      ensures State() == if floated then FloatStep(old(State()), tank.topOfWater) else old(State())
      ensures old(InTank()) ==> InTank()
    {
      floated := floatAnimation.OnFrame(reading);
      if floated {
        Float();
      }
    }

    /**
     * `handleOnClick`: toggles the swim scheduler only (restarting it may
     * swim at once) and shows or hides the speech bubble. The float
     * scheduler is left alone.
     */
    method HandleOnClick(reading: int, u: real) returns (swam: bool)
      requires Valid() && 0.0 <= u < 1.0
      modifies swimAnimation, this`bubbleShown, this`x, this`y, this`scaleX, this`swimReverse, this`behaviorTurn, this`behaviorChosen
      ensures Valid() && unchanged(floatAnimation)
      ensures bubbleShown == !old(bubbleShown)
      ensures var t := Scheduler.ToggleStep(old(swimAnimation.State()), Scheduler.DefaultInterval, reading);
        swimAnimation.State() == t.clock && swam == t.fired
      ensures swimAnimation.pending == old(swimAnimation.pending) + (if old(swimAnimation.stop) then 1 else 0)
      ensures State() == if swam then SwimStep(old(State()), tank.width, width, tank.topOfWater, ChoiceIndex(u)) else old(State())
      ensures old(InTank()) ==> InTank()
    {
      swam := swimAnimation.ToggleAnimation(reading);
      if swam {
        Swim(u);
      }
      bubbleShown := !bubbleShown;
    }
  }

  class Tank {
    var width: int
    var height: int
    var topOfWater: int
    var fishes: seq<Fish>

    /**
     * Measures the tank, then creates one fish per settings entry, in order.
     * `spawns[i]` holds the host values for placing fish i.
     */
    constructor (width: nat, height: nat, settings: seq<FishSettings>, spawns: seq<Spawn>, reading: int)
      requires |spawns| == |settings|
      requires forall i :: 0 <= i < |spawns| ==> ValidSpawn(spawns[i])
      ensures this.width == width && this.height == height && topOfWater == WaterLine(height)
      ensures |fishes| == |settings|
      ensures forall i :: 0 <= i < |fishes| ==>
        fresh(fishes[i]) && fishes[i].tank == this && fishes[i].name == settings[i].name && fishes[i].Valid()
      ensures |fishes| == |spawns| && forall i :: 0 <= i < |fishes| ==>
        ValidSpawn(spawns[i]) && fishes[i].State() == Spawned(spawns[i].u, spawns[i].v, width, WaterLine(height))
      ensures width > 0 && WaterLine(height) < BottomY ==> forall i :: 0 <= i < |fishes| ==> fishes[i].InTank()
      ensures forall i, j :: 0 <= i < j < |fishes| ==> fishes[i] != fishes[j]
    {
      fishes := [];
      new;
      HandleResize(width, height);
      var i := 0;
      while i < |settings|
        invariant 0 <= i <= |settings| && |fishes| == i
        invariant this.width == width && this.height == height && topOfWater == WaterLine(height)
        invariant forall j :: 0 <= j < i ==>
          fresh(fishes[j]) && fishes[j].tank == this && fishes[j].name == settings[j].name && fishes[j].Valid()
        invariant forall j :: 0 <= j < i ==>
          ValidSpawn(spawns[j]) && fishes[j].State() == Spawned(spawns[j].u, spawns[j].v, width, WaterLine(height))
        invariant forall k :: 0 <= k < i ==> fishes[k] !in fishes[..k]
      {
        AddFish(settings[i], spawns[i], reading);
        i := i + 1;
      }
    }

    /** `addFish`: appends one new fish; the fishes already there are untouched. */
    method AddFish(settings: FishSettings, spawn: Spawn, reading: int)
      requires ValidSpawn(spawn)
      modifies this`fishes
      ensures |fishes| == |old(fishes)| + 1 && fishes[..|old(fishes)|] == old(fishes)
      ensures var f := fishes[|fishes| - 1];
        fresh(f) && f.tank == this && f.name == settings.name && f.Valid()
        && f.State() == Spawned(spawn.u, spawn.v, width, topOfWater)
      ensures fishes[|fishes| - 1] !in old(fishes)
    {
      var f := new Fish(settings, this, spawn, reading);
      fishes := fishes + [f];
    }

    /** `handleResize`: new dimensions and water line; the fishes are not moved. */
    method HandleResize(width: nat, height: nat)
      modifies this`width, this`height, this`topOfWater
      ensures this.width == width && this.height == height && topOfWater == WaterLine(height)
      ensures height > 0 ==> topOfWater < height
      ensures fishes == old(fishes)
    {
      this.width := width;
      this.height := height;
      topOfWater := WaterLine(height);
    }
  }
}
