/**
 * The game's constant tables: screen size, base values and per-level
 * increments, the upgrade cost tables and the depth-zone table.
 */
module Config {

  const ScreenWidth := 800
  const ScreenHeight := 600
  const Fps := 60

  const BaseRoundDuration := 10000  // milliseconds
  const BaseLineSpeed: real := 0.5  // depth units per tick while descending
  const BaseReelSpeed: real := 5.0  // depth units per tick while retracting
  const BaseHookCapacity := 4
  const BaseMaxDepth := 300

  const LineLength := "line_length"
  const HookCapacity := "hook_capacity"
  const RoundTimer := "round_timer"

  /** Cost of the next level of each upgrade, indexed by the current level. */
  const UpgradeCosts: map<string, seq<nat>> := map[
    LineLength := [100, 250, 500, 1000, 2000],
    HookCapacity := [200, 400, 800, 1600, 3200],
    RoundTimer := [150, 300, 600, 1200, 2400]
  ]

  const DepthIncreasePerLevel := 100
  const CapacityIncreasePerLevel := 1
  const TimerIncreasePerLevel := 5000

  datatype Zone = Surface | Shallows | MidWater | DeepSea | Abyss

  /** One entry of the depth-zone table: an inclusive integer interval. */
  datatype ZoneBand = ZoneBand(zone: Zone, minDepth: int, maxDepth: int) {
    predicate Contains(depth: real) {
      minDepth as real <= depth <= maxDepth as real
    }
  }

  /** The depth-zone table, in the order of the source's dictionary. */
  const DepthZones: seq<ZoneBand> := [
    ZoneBand(Surface, 0, 100),
    ZoneBand(Shallows, 101, 200),
    ZoneBand(MidWater, 201, 300),
    ZoneBand(DeepSea, 301, 400),
    ZoneBand(Abyss, 401, 500)
  ]

  /** The zone names in table order (the dictionary's keys). */
  const ZoneOrder: seq<Zone> := [Surface, Shallows, MidWater, DeepSea, Abyss]

  const PlayerPosX := ScreenWidth / 2
  const PlayerPosY := 50

  const HookWidth := 20
  const HookHeight := 20

  const MinFishSpeed := 1
  const MaxFishSpeed := 3
  const FishSpawnRate := 1

  const UiPadding := 10
  const ButtonWidth := 200
  const ButtonHeight := 50
  const ButtonRadius := 10

  /** Position of a zone in the table. */
  function ZoneIndex(z: Zone): (i: nat)
    ensures i < |ZoneOrder| && ZoneOrder[i] == z && DepthZones[i].zone == z
  {
    match z
    case Surface => 0
    case Shallows => 1
    case MidWater => 2
    case DeepSea => 3
    case Abyss => 4
  }

  /** Every upgrade has a five-tier cost table, so its highest level is 5. */
  lemma CostTablesHaveFiveTiers()
    ensures UpgradeCosts.Keys == {LineLength, HookCapacity, RoundTimer}
    ensures forall name :: name in UpgradeCosts ==> |UpgradeCosts[name]| == 5
  {
  }

  /** Each cost table rises strictly with the level. */
  lemma CostsStrictlyIncrease(name: string, i: nat, j: nat)
    requires name in UpgradeCosts && i < j < |UpgradeCosts[name]|
    ensures UpgradeCosts[name][i] < UpgradeCosts[name][j]
  {
  }

  /** The zone names follow the table, and each zone starts one past the previous maximum. */
  lemma ZonesContiguous()
    ensures |DepthZones| == |ZoneOrder| == 5
    ensures forall i :: 0 <= i < |DepthZones| ==> DepthZones[i].zone == ZoneOrder[i]
    ensures forall i :: 0 < i < |DepthZones| ==> DepthZones[i].minDepth == DepthZones[i - 1].maxDepth + 1
    ensures DepthZones[0].minDepth == 0 && DepthZones[4].maxDepth == 500
  {
  }

  /** No depth lies in two zones. */
  lemma ZonesDisjoint(depth: real, i: nat, j: nat)
    requires i < j < |DepthZones|
    ensures !(DepthZones[i].Contains(depth) && DepthZones[j].Contains(depth))
  {
  }

  /** Every whole depth from 0 to 500 lies in some zone. */
  lemma {:induction false} ZonesCoverWholeDepths(depth: int)
    requires 0 <= depth <= 500
    ensures exists i :: 0 <= i < |DepthZones| && DepthZones[i].Contains(depth as real)
  {
    var i := if depth <= 100 then 0 else (depth - 1) / 100;
    assert DepthZones[i].Contains(depth as real);
  }

  /** A fractional depth strictly between two zones lies in none. */
  lemma GapsBelongToNoZone(depth: real, k: int)
    requires 1 <= k <= 4
    requires (100 * k) as real < depth < (100 * k + 1) as real
    ensures forall i :: 0 <= i < |DepthZones| ==> !DepthZones[i].Contains(depth)
  {
  }

  lemma FishSpeedsOrdered()
    ensures MinFishSpeed <= MaxFishSpeed
  {
  }
}
