/**
 * The fishing line: virtual depth, descending/retracting state, horizontal
 * offset, the hook rectangle and the fish on the hook.
 */
module Fishing {
  import opened Shared
  import opened Config
  import opened Fishes
  import Progress

  /** The rod's x position: the player's x plus 20 (player.py). */
  const RodX := PlayerPosX + 20
  /** The hook's top stays at mid-screen; depth is conveyed by moving the world. */
  const HookFixedY := ScreenHeight / 2
  const MaxHorizontalRange := 350

  /** Where the hook's centre hangs when the line is `offset` to the side of the rod. */
  function HookCenter(offset: int, hookHeight: int): Point {
    Point(RodX + offset, HookFixedY + hookHeight / 2)
  }

  /**
   * One descending tick: the depth grows by the line speed and is clamped
   * at the maximum depth, where it then stays.
   */
  function DescendStep(depth: real, maxDepth: int): (d: real)
    ensures d <= maxDepth as real
    ensures d == depth + BaseLineSpeed || d == maxDepth as real
    ensures depth + BaseLineSpeed < maxDepth as real ==> d == depth + BaseLineSpeed
    ensures depth + BaseLineSpeed >= maxDepth as real ==> d == maxDepth as real
  {
    var next := depth + BaseLineSpeed;
    if next >= maxDepth as real then maxDepth as real else next
  }

  /** The depth after `ticks` descending ticks from the surface. */
  function DepthAfter(ticks: nat, maxDepth: int): real {
    if ticks == 0 then 0.0 else DescendStep(DepthAfter(ticks - 1, maxDepth), maxDepth)
  }

  /**
   * Descending from the surface, the hook is at half a unit per tick until
   * it reaches the maximum depth, and stays there: it never turns back.
   */
  lemma {:induction false} DescentFromSurface(ticks: nat, maxDepth: int)
    requires maxDepth >= 0
    ensures DepthAfter(ticks, maxDepth) == RealMin((ticks as real) * BaseLineSpeed, maxDepth as real)
  {
    if ticks > 0 {
      DescentFromSurface(ticks - 1, maxDepth);
    }
  }

  function RealMin(a: real, b: real): real { if a <= b then a else b }

  /** One retracting tick: up by the reel speed; at or above the surface, the line resets. */
  function RetractStep(depth: real): (r: (real, bool))
    ensures r.1 <==> depth - BaseReelSpeed <= 0.0
    ensures r.1 ==> r.0 == 0.0
    ensures !r.1 ==> r.0 == depth - BaseReelSpeed && r.0 > 0.0
  {
    var next := depth - BaseReelSpeed;
    if next <= 0.0 then (0.0, true) else (next, false)
  }

  class FishingLine {
    const economy: Progress.GameState?
    const hookWidth: nat
    const hookHeight: nat
    var currentDepth: real
    var descending: bool
    var horizontalOffset: int
    var hookRect: Rect
    var caughtFish: seq<Fish>

    /**
     * The line's invariant: a valid economy (when there is one), depth never
     * above the surface, the offset within range, the hook's size and top
     * fixed, and no fish twice on the hook.
     */
    predicate Valid()
      reads this, economy
    {
      && (economy != null ==> economy.Valid())
      && 0.0 <= currentDepth
      && -MaxHorizontalRange <= horizontalOffset <= MaxHorizontalRange
      && hookRect.w == hookWidth && hookRect.h == hookHeight && hookRect.y == HookFixedY
      && NoDuplicates(caughtFish)
    }

    constructor (economy: Progress.GameState?, hookWidth: nat, hookHeight: nat)
      requires economy != null ==> economy.Valid()
      ensures Valid() && this.economy == economy
      ensures currentDepth == 0.0 && descending && horizontalOffset == 0 && caughtFish == []
      ensures hookRect.Center().x == RodX && hookRect.y == HookFixedY
    {
      this.economy := economy;
      this.hookWidth := hookWidth;
      this.hookHeight := hookHeight;
      currentDepth := 0.0;
      descending := true;
      hookRect := Rect(0, 0, hookWidth, hookHeight).WithCenterX(RodX).(y := HookFixedY);
      horizontalOffset := 0;
      caughtFish := [];
    }

    /** The maximum depth from the economy, or the base value without one. */
    function GetMaxDepth(): (d: int)
      reads this, economy
      requires Valid()
      ensures BaseMaxDepth <= d <= BaseMaxDepth + 5 * DepthIncreasePerLevel
      ensures economy != null ==> d == economy.GetMaxDepth()
    {
      if economy != null then economy.GetMaxDepth() else BaseMaxDepth
    }

    /** The hook capacity from the economy, or the base value without one. */
    function GetHookCapacity(): (c: int)
      reads this, economy
      requires Valid()
      ensures BaseHookCapacity <= c <= BaseHookCapacity + 5 * CapacityIncreasePerLevel
      ensures economy != null ==> c == economy.GetHookCapacity()
    {
      if economy != null then economy.GetHookCapacity() else BaseHookCapacity
    }

    /**
     * One tick: descend and clamp at the maximum depth, or retract and
     * reset at the surface; then put the hook under the rod plus the offset.
     */
    method Update()
      requires Valid()
      modifies this
      ensures Valid()
      ensures old(descending) ==> && descending
                                  && currentDepth == DescendStep(old(currentDepth), GetMaxDepth())
                                  && horizontalOffset == old(horizontalOffset) && caughtFish == old(caughtFish)
      ensures !old(descending) ==> var (depth, reset) := RetractStep(old(currentDepth));
                                   && currentDepth == depth
                                   && descending == reset
                                   && horizontalOffset == (if reset then 0 else old(horizontalOffset))
                                   && caughtFish == (if reset then [] else old(caughtFish))
      ensures hookRect.Center().x == RodX + horizontalOffset && hookRect.y == HookFixedY
    {
      if descending {
        currentDepth := currentDepth + BaseLineSpeed;
        if currentDepth >= GetMaxDepth() as real {
          currentDepth := GetMaxDepth() as real;
        }
      } else {
        currentDepth := currentDepth - BaseReelSpeed;
        if currentDepth <= 0.0 {
          currentDepth := 0.0;
          descending := true;
          horizontalOffset := 0;
          caughtFish := [];
        }
      }
      hookRect := hookRect.WithCenterX(RodX + horizontalOffset).(y := HookFixedY);
    }

    /**
     * `add_caught_fish`: appends the fish when the hook has room and does
     * not hold it yet; depth, direction and offset are untouched.
     */
    method AddCaughtFish(fish: Fish) returns (added: bool)
      requires Valid()
      modifies this`caughtFish
      ensures Valid()
      ensures added <==> |old(caughtFish)| < GetHookCapacity() && fish !in old(caughtFish)
      ensures caughtFish == if added then old(caughtFish) + [fish] else old(caughtFish)
      ensures |old(caughtFish)| <= GetHookCapacity() ==> |caughtFish| <= GetHookCapacity()
    {
      if |caughtFish| < GetHookCapacity() {
        if fish !in caughtFish {
          caughtFish := caughtFish + [fish];
          return true;
        }
      }
      return false;
    }

    /** The hook is full: it holds as many fish as the economy's capacity allows, 4 without an economy. */
    function IsAtCapacity(): (full: bool)
      reads this, economy
      requires Valid()
      ensures economy != null ==> (full <==> |caughtFish| >= economy.GetHookCapacity())
      ensures economy == null ==> (full <==> |caughtFish| >= BaseHookCapacity)
    {
      |caughtFish| >= GetHookCapacity()
    }

    /** At the maximum depth and retracting; never true while descending. */
    function ReachedMaxDepth(): (reached: bool)
      reads this, economy
      requires Valid()
      ensures descending ==> !reached
      ensures reached <==> !descending && currentDepth >= GetMaxDepth() as real
    {
      currentDepth >= GetMaxDepth() as real && !descending
    }

    /** `reset`: ready for another cast at the same depth. */
    method Reset()
      requires Valid()
      modifies this
      ensures Valid()
      ensures currentDepth == old(currentDepth) && hookRect == old(hookRect)
      ensures descending && horizontalOffset == 0 && caughtFish == []
    {
      descending := true;
      horizontalOffset := 0;
      caughtFish := [];
    }

    /** `full_reset`: back at the surface, ready for a new round. */
    method FullReset()
      requires Valid()
      modifies this
      ensures Valid()
      ensures hookRect == old(hookRect)
      ensures currentDepth == 0.0 && descending && horizontalOffset == 0 && caughtFish == []
    {
      currentDepth := 0.0;
      descending := true;
      horizontalOffset := 0;
      caughtFish := [];
    }
  }
}
