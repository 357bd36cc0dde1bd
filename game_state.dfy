/**
 * The persistent economy: coin balance, upgrade levels, power-up counters,
 * unlocked zones and lifetime statistics, with the guarded updates of the
 * `GameState` class.
 */
module Progress {
  import opened Shared
  import opened Config

  const CoinMultiplier := "coin_multiplier"
  const RareFishLure := "rare_fish_lure"
  const MagnetHook := "magnet_hook"
  const DepthRush := "depth_rush"

  /** The whole economy as a value: one field per attribute of `GameState`. */
  datatype Snapshot = Snapshot(
    coins: int,
    upgrades: map<string, nat>,
    powerUps: map<string, nat>,
    unlockedZones: seq<Zone>,
    totalFishCaught: int,
    totalCoinsEarned: int,
    deepestDepthReached: real)

  function InitialUpgrades(): map<string, nat> {
    map[LineLength := 0, HookCapacity := 0, RoundTimer := 0]
  }

  function InitialPowerUps(): map<string, nat> {
    map[CoinMultiplier := 0, RareFishLure := 0, MagnetHook := 0, DepthRush := 0]
  }

  /** The state a new game starts in, and the state `reset_progress` restores. */
  function Initial(): Snapshot {
    Snapshot(0, InitialUpgrades(), InitialPowerUps(), [Surface], 0, 0, 0.0)
  }

  /** The zones unlocked at a line-length level: a prefix of the zone table. */
  function UnlockedZonesAt(lineLevel: nat): (zs: seq<Zone>)
    ensures 1 <= |zs| <= |ZoneOrder| && zs == ZoneOrder[..|zs|]
    ensures forall z :: z in zs <==> ZoneIndex(z) <= lineLevel
  {
    ZoneOrder[..Min(|ZoneOrder|, lineLevel + 1)]
  }

  /**
   * What every reachable economy satisfies: the dictionaries have exactly
   * their initial keys, levels stay within their cost tables, and the
   * unlocked-zone list is the prefix the line-length level allows.
   */
  predicate WellFormed(s: Snapshot) {
    && s.upgrades.Keys == UpgradeCosts.Keys
    && s.powerUps.Keys == InitialPowerUps().Keys
    && (forall name :: name in s.upgrades ==> s.upgrades[name] <= |UpgradeCosts[name]|)
    && s.unlockedZones == UnlockedZonesAt(s.upgrades[LineLength])
  }

  lemma InitialWellFormed()
    ensures WellFormed(Initial())
    ensures Initial().unlockedZones == [Surface]
  {
    assert UnlockedZonesAt(0) == [Surface];
  }

  /** Why a purchase is refused, or None when it goes through. */
  function PurchaseRefusal(s: Snapshot, name: string): (why: Option<string>)
    requires s.upgrades.Keys == UpgradeCosts.Keys
  {
    if name !in s.upgrades then Some("unknown upgrade")
    else if s.upgrades[name] >= |UpgradeCosts[name]| then Some("max level reached")
    else if s.coins < UpgradeCosts[name][s.upgrades[name]] then Some("not enough coins")
    else None
  }

  /**
   * `purchase_upgrade` on a value: the success flag and the new state. On
   * failure nothing changes; on success the coins drop by exactly the cost
   * at the current level, that level rises by one, the zones are recomputed
   * and nothing else changes.
   */
  function UpgradePurchase(s: Snapshot, name: string): (r: (bool, Snapshot))
    requires s.upgrades.Keys == UpgradeCosts.Keys
    ensures r.0 <==> name in s.upgrades && s.upgrades[name] < |UpgradeCosts[name]|
                     && s.coins >= UpgradeCosts[name][s.upgrades[name]]
    ensures !r.0 ==> r.1 == s
    ensures r.0 ==> r.1 == s.(coins := s.coins - UpgradeCosts[name][s.upgrades[name]],
                              upgrades := s.upgrades[name := s.upgrades[name] + 1],
                              unlockedZones := UnlockedZonesAt(s.upgrades[name := s.upgrades[name] + 1][LineLength]))
    ensures r.0 ==> 0 <= r.1.coins < s.coins
    ensures WellFormed(s) ==> WellFormed(r.1)
  {
    if PurchaseRefusal(s, name).Some? then (false, s)
    else
      var level := s.upgrades[name];
      var upgrades := s.upgrades[name := level + 1];
      (true, s.(coins := s.coins - UpgradeCosts[name][level],
                upgrades := upgrades,
                unlockedZones := UnlockedZonesAt(upgrades[LineLength])))
  }

  /** A successful purchase, field by field. */
  lemma PurchaseOutcome(s: Snapshot, name: string)
    requires WellFormed(s) && PurchaseRefusal(s, name).None?
    ensures var level := s.upgrades[name];
            var upgrades := s.upgrades[name := level + 1];
            UpgradePurchase(s, name) == (true, Snapshot(s.coins - UpgradeCosts[name][level], upgrades, s.powerUps,
                                                 UnlockedZonesAt(upgrades[LineLength]), s.totalFishCaught,
                                                 s.totalCoinsEarned, s.deepestDepthReached))
  {
  }

  /** A level at the end of its cost table cannot be bought again, whatever the balance. */
  lemma MaxedUpgradeRefused(s: Snapshot, name: string)
    requires WellFormed(s) && name in s.upgrades && s.upgrades[name] == 5
    ensures UpgradePurchase(s, name) == (false, s)
  {
    CostTablesHaveFiveTiers();
  }

  /**
   * Buying the same upgrade repeatedly: every success raises the level by
   * one, so after five successes the sixth attempt fails.
   */
  lemma RepeatedPurchaseStops(s: Snapshot, name: string, n: nat)
    requires WellFormed(s) && name in s.upgrades
    ensures var t := PurchaseMany(s, name, n);
            && t.upgrades[name] <= 5
            && (t.upgrades[name] == 5 ==> UpgradePurchase(t, name) == (false, t))
  {
    var t := PurchaseMany(s, name, n);
    CostTablesHaveFiveTiers();
    assert name in UpgradeCosts && name in t.upgrades;
    assert t.upgrades[name] <= |UpgradeCosts[name]| == 5;
    if t.upgrades[name] == 5 {
      MaxedUpgradeRefused(t, name);
    }
  }

  /** `n` purchase attempts of one upgrade in a row; they never add coins. */
  function PurchaseMany(s: Snapshot, name: string, n: nat): (t: Snapshot)
    requires WellFormed(s)
    ensures WellFormed(t)
    ensures t.coins <= s.coins
  {
    if n == 0 then s else UpgradePurchase(PurchaseMany(s, name, n - 1), name).1
  }

  /** `purchase_power_up`: fails on an unknown name or when coins < cost. */
  function PowerUpPurchase(s: Snapshot, name: string, cost: int): (r: (bool, Snapshot))
    ensures r.0 <==> name in s.powerUps && s.coins >= cost
    ensures !r.0 ==> r.1 == s
    ensures r.0 ==> r.1 == s.(coins := s.coins - cost, powerUps := s.powerUps[name := s.powerUps[name] + 1])
  {
    if name !in s.powerUps then (false, s)
    else if s.coins < cost then (false, s)
    else (true, s.(coins := s.coins - cost, powerUps := s.powerUps[name := s.powerUps[name] + 1]))
  }

  /** `use_power_up`: fails on an unknown name or an empty counter, else takes one. */
  function PowerUpUse(s: Snapshot, name: string): (r: (bool, Snapshot))
    ensures r.0 <==> name in s.powerUps && s.powerUps[name] > 0
    ensures !r.0 ==> r.1 == s
    ensures r.0 ==> r.1 == s.(powerUps := s.powerUps[name := s.powerUps[name] - 1])
  {
    if name !in s.powerUps then (false, s)
    else if s.powerUps[name] <= 0 then (false, s)
    else (true, s.(powerUps := s.powerUps[name := s.powerUps[name] - 1]))
  }

  /** Buying a power-up and then using it restores every counter, for the price paid. */
  lemma BuyThenUsePowerUp(s: Snapshot, name: string, cost: int)
    requires name in s.powerUps && s.coins >= cost
    ensures var bought := PowerUpPurchase(s, name, cost);
            var used := PowerUpUse(bought.1, name);
            bought.0 && used.0 && used.1 == s.(coins := s.coins - cost)
  {
    var bought := PowerUpPurchase(s, name, cost);
    assert bought.1.powerUps[name := bought.1.powerUps[name] - 1] == s.powerUps;
  }

  function MaxDepthAt(lineLevel: nat): int {
    BaseMaxDepth + lineLevel * DepthIncreasePerLevel
  }

  function HookCapacityAt(hookLevel: nat): int {
    BaseHookCapacity + hookLevel * CapacityIncreasePerLevel
  }

  function RoundDurationAt(timerLevel: nat): int {
    BaseRoundDuration + timerLevel * TimerIncreasePerLevel
  }

  /** The derived limits at level 0 are 300, 4 and 10000 ms. */
  lemma BaseLimits()
    ensures MaxDepthAt(0) == 300 && HookCapacityAt(0) == 4 && RoundDurationAt(0) == 10000
  {
  }

  /** Each derived limit rises strictly with its level, by 100, 1 and 5000 per level. */
  lemma {:induction false} LimitsStrictlyIncrease(a: nat, b: nat)
    requires a < b
    ensures MaxDepthAt(a) < MaxDepthAt(b) && HookCapacityAt(a) < HookCapacityAt(b)
            && RoundDurationAt(a) < RoundDurationAt(b)
    ensures MaxDepthAt(a + 1) - MaxDepthAt(a) == 100 && HookCapacityAt(a + 1) - HookCapacityAt(a) == 1
            && RoundDurationAt(a + 1) - RoundDurationAt(a) == 5000
  {
  }

  /** `add_coins` on a value: balance and lifetime earnings both rise by the amount. */
  function CoinsAdded(s: Snapshot, amount: int): (t: Snapshot)
    ensures t.coins - s.coins == amount && t.totalCoinsEarned - s.totalCoinsEarned == amount
    ensures t.(coins := s.coins, totalCoinsEarned := s.totalCoinsEarned) == s
  {
    s.(coins := s.coins + amount, totalCoinsEarned := s.totalCoinsEarned + amount)
  }

  /** `update_stats`: counts the fish and keeps the deepest depth seen. */
  function StatsUpdated(s: Snapshot, depth: real, fishCaught: int): (t: Snapshot)
    ensures t.totalFishCaught == s.totalFishCaught + fishCaught
    ensures t.deepestDepthReached >= s.deepestDepthReached && t.deepestDepthReached >= depth
    ensures t.deepestDepthReached == s.deepestDepthReached || t.deepestDepthReached == depth
    ensures t.(totalFishCaught := s.totalFishCaught, deepestDepthReached := s.deepestDepthReached) == s
  {
    s.(totalFishCaught := s.totalFishCaught + fishCaught,
       deepestDepthReached := if depth > s.deepestDepthReached then depth else s.deepestDepthReached)
  }

  /** The statistics part of a saved record; every field may be missing. */
  datatype SavedStats = SavedStats(
    totalFishCaught: Option<int>,
    totalCoinsEarned: Option<int>,
    deepestDepthReached: Option<real>)

  /** A saved record, field by field; every field may be missing. */
  datatype SaveData = SaveData(
    coins: Option<int>,
    upgrades: Option<map<string, nat>>,
    powerUps: Option<map<string, nat>>,
    unlockedZones: Option<seq<Zone>>,
    stats: Option<SavedStats>)

  function GetOr<T>(o: Option<T>, default: T): T {
    match o
    case Some(v) => v
    case None => default
  }

  /** The record `save_game` writes: every field is present, the statistics included. */
  function Save(s: Snapshot): (d: SaveData)
    ensures d.coins.Some? && d.upgrades.Some? && d.powerUps.Some? && d.unlockedZones.Some? && d.stats.Some?
    ensures d.stats.value.totalFishCaught.Some? && d.stats.value.totalCoinsEarned.Some?
    ensures d.stats.value.deepestDepthReached.Some?
  {
    SaveData(Some(s.coins), Some(s.upgrades), Some(s.powerUps), Some(s.unlockedZones),
      Some(SavedStats(Some(s.totalFishCaught), Some(s.totalCoinsEarned), Some(s.deepestDepthReached))))
  }

  /**
   * How `load_game` merges a record into the current state: a missing
   * field takes its initial value, except the two dictionaries, which keep
   * their current value. The unlocked zones are taken as saved, not
   * recomputed.
   */
  function Load(current: Snapshot, d: SaveData): (t: Snapshot)
    ensures d.upgrades.None? ==> t.upgrades == current.upgrades
    ensures d.powerUps.None? ==> t.powerUps == current.powerUps
    ensures d.coins.None? ==> t.coins == 0
    ensures d.unlockedZones.None? ==> t.unlockedZones == [Surface]
    ensures d.stats.None? ==> t.totalFishCaught == 0 && t.totalCoinsEarned == 0 && t.deepestDepthReached == 0.0
    ensures d.coins.Some? ==> t.coins == d.coins.value
    ensures d.upgrades.Some? ==> t.upgrades == d.upgrades.value
    ensures d.powerUps.Some? ==> t.powerUps == d.powerUps.value
    ensures d.unlockedZones.Some? ==> t.unlockedZones == d.unlockedZones.value
    ensures d.stats.Some? ==> var st := d.stats.value;
              && t.totalFishCaught == (if st.totalFishCaught.Some? then st.totalFishCaught.value else 0)
              && t.totalCoinsEarned == (if st.totalCoinsEarned.Some? then st.totalCoinsEarned.value else 0)
              && t.deepestDepthReached == (if st.deepestDepthReached.Some? then st.deepestDepthReached.value else 0.0)
  {
    var stats := GetOr(d.stats, SavedStats(None, None, None));
    Snapshot(
      GetOr(d.coins, 0),
      GetOr(d.upgrades, current.upgrades),
      GetOr(d.powerUps, current.powerUps),
      GetOr(d.unlockedZones, [Surface]),
      GetOr(stats.totalFishCaught, 0),
      GetOr(stats.totalCoinsEarned, 0),
      GetOr(stats.deepestDepthReached, 0.0))
  }

  /** Loading what was saved restores every field, whatever the state it is loaded into. */
  lemma SaveLoadRoundTrip(s: Snapshot, current: Snapshot)
    ensures Load(current, Save(s)) == s
  {
  }

  /**
   * The economy object. Every method is tied to the value-level function
   * of the same name through `Data()`.
   */
  class GameState {
    var coins: int
    var upgrades: map<string, nat>
    var powerUps: map<string, nat>
    var unlockedZones: seq<Zone>
    var totalFishCaught: int
    var totalCoinsEarned: int
    var deepestDepthReached: real

    function Data(): Snapshot
      reads this
    {
      Snapshot(coins, upgrades, powerUps, unlockedZones, totalFishCaught, totalCoinsEarned, deepestDepthReached)
    }

    predicate Valid()
      reads this
    {
      WellFormed(Data())
    }

    constructor ()
      ensures Valid() && Data() == Initial()
    {
      coins := 0;
      upgrades := InitialUpgrades();
      powerUps := InitialPowerUps();
      unlockedZones := [Surface];
      totalFishCaught := 0;
      totalCoinsEarned := 0;
      deepestDepthReached := 0.0;
      new;
      InitialWellFormed();
    }

    method AddCoins(amount: int)
      modifies this
      ensures Data() == CoinsAdded(old(Data()), amount)
      ensures old(Valid()) ==> Valid()
    {
      coins := coins + amount;
      totalCoinsEarned := totalCoinsEarned + amount;
    }

    method PurchaseUpgrade(name: string) returns (ok: bool)
      requires Valid()
      modifies this
      ensures Valid()
      ensures (ok, Data()) == UpgradePurchase(old(Data()), name)
    {
      ghost var before := Data();
      if name !in upgrades {
        return false;
      }
      var currentLevel := upgrades[name];
      if currentLevel >= |UpgradeCosts[name]| {
        return false;
      }
      var cost := UpgradeCosts[name][currentLevel];
      if coins < cost {
        return false;
      }
      ghost var after := UpgradePurchase(before, name).1;
      PurchaseOutcome(before, name);
      assert WellFormed(after);
      coins := coins - cost;
      upgrades := upgrades[name := currentLevel + 1];
      assert coins == after.coins && upgrades == after.upgrades;
      UpdateUnlockedZones();
      assert unlockedZones == after.unlockedZones;
      return true;
    }

    method PurchasePowerUp(name: string, cost: int) returns (ok: bool)
      requires Valid()
      modifies this
      ensures Valid()
      ensures (ok, Data()) == PowerUpPurchase(old(Data()), name, cost)
    {
      if name !in powerUps {
        return false;
      }
      if coins < cost {
        return false;
      }
      coins := coins - cost;
      powerUps := powerUps[name := powerUps[name] + 1];
      return true;
    }

    method UsePowerUp(name: string) returns (ok: bool)
      requires Valid()
      modifies this
      ensures Valid()
      ensures (ok, Data()) == PowerUpUse(old(Data()), name)
    {
      if name !in powerUps {
        return false;
      }
      if powerUps[name] <= 0 {
        return false;
      }
      powerUps := powerUps[name := powerUps[name] - 1];
      return true;
    }

    /** The deepest the hook may go: 300 at level 0, at most 800. */
    function GetMaxDepth(): (d: int)
      reads this
      requires Valid()
      ensures d == MaxDepthAt(upgrades[LineLength])
      ensures BaseMaxDepth <= d <= BaseMaxDepth + 5 * DepthIncreasePerLevel
    {
      MaxDepthAt(upgrades[LineLength])
    }

    /** How many fish the hook holds: 4 at level 0, at most 9. */
    function GetHookCapacity(): (c: int)
      reads this
      requires Valid()
      ensures c == HookCapacityAt(upgrades[HookCapacity])
      ensures BaseHookCapacity <= c <= BaseHookCapacity + 5 * CapacityIncreasePerLevel
    {
      HookCapacityAt(upgrades[HookCapacity])
    }

    /** The round length in milliseconds: 10000 at level 0, at most 35000. */
    function GetRoundDuration(): (ms: int)
      reads this
      requires Valid()
      ensures ms == RoundDurationAt(upgrades[RoundTimer])
      ensures BaseRoundDuration <= ms <= BaseRoundDuration + 5 * TimerIncreasePerLevel
    {
      RoundDurationAt(upgrades[RoundTimer])
    }

    method UpdateUnlockedZones()
      requires upgrades.Keys == UpgradeCosts.Keys
      modifies this`unlockedZones
      ensures unlockedZones == UnlockedZonesAt(upgrades[LineLength])
    {
      var zones := ZoneOrder;
      var unlockedCount := Min(|zones|, upgrades[LineLength] + 1);
      unlockedZones := zones[..unlockedCount];
    }

    function GetUnlockedZones(): (zs: seq<Zone>)
      reads this
      requires Valid()
      ensures zs != [] && zs[0] == Surface
      ensures forall z :: z in zs <==> ZoneIndex(z) <= upgrades[LineLength]
    {
      unlockedZones
    }

    method UpdateStats(depth: real, fishCaught: int)
      modifies this
      ensures Data() == StatsUpdated(old(Data()), depth, fishCaught)
      ensures old(Valid()) ==> Valid()
    {
      totalFishCaught := totalFishCaught + fishCaught;
      if depth > deepestDepthReached {
        deepestDepthReached := depth;
      }
    }

    /** `load_game` once the record has been read; reading the file is not modelled. */
    method LoadGame(d: SaveData)
      modifies this
      ensures Data() == Load(old(Data()), d)
    {
      var loaded := Load(Data(), d);
      coins := loaded.coins;
      upgrades := loaded.upgrades;
      powerUps := loaded.powerUps;
      unlockedZones := loaded.unlockedZones;
      totalFishCaught := loaded.totalFishCaught;
      totalCoinsEarned := loaded.totalCoinsEarned;
      deepestDepthReached := loaded.deepestDepthReached;
    }

    method ResetProgress()
      modifies this
      ensures Valid() && Data() == Initial()
    {
      coins := 0;
      upgrades := InitialUpgrades();
      powerUps := InitialPowerUps();
      unlockedZones := [Surface];
      totalFishCaught := 0;
      totalCoinsEarned := 0;
      deepestDepthReached := 0.0;
      InitialWellFormed();
    }
  }
}
