/**
 * The game's controller: the three screens, the round life cycle (start,
 * per-tick update, end and payout) and what a left click does on each
 * screen. The clock and the pointer position are parameters.
 */
module Round {
  import opened Shared
  import opened Config
  import Progress
  import Fishing
  import Fishes
  import FishPopulation
  import UserInterface

  datatype Screen = MainGame | Results | Shop

  /** The pointer's horizontal distance from the rod, limited to the line's reach. */
  function ClampOffset(dx: int): (o: int)
    ensures -Fishing.MaxHorizontalRange <= o <= Fishing.MaxHorizontalRange
    ensures -Fishing.MaxHorizontalRange <= dx <= Fishing.MaxHorizontalRange ==> o == dx
    ensures dx > Fishing.MaxHorizontalRange ==> o == Fishing.MaxHorizontalRange
    ensures dx < -Fishing.MaxHorizontalRange ==> o == -Fishing.MaxHorizontalRange
  {
    if dx > Fishing.MaxHorizontalRange then Fishing.MaxHorizontalRange
    else if dx < -Fishing.MaxHorizontalRange then -Fishing.MaxHorizontalRange
    else dx
  }

  /**
   * On the shop screen a click acts on at most one button: buying an
   * upgrade, starting a round and resetting progress exclude each other.
   */
  lemma ShopClickActsOnce(s: Progress.Snapshot, mouse: Point)
    requires s.upgrades.Keys == UpgradeCosts.Keys
    ensures var start := UserInterface.Buttons[1].1.CollidePoint(mouse);
            var reset := UserInterface.Buttons[2].1.CollidePoint(mouse);
            && (UserInterface.UpgradeClick(s, UserInterface.UpgradeButtons, mouse).Some? ==> !start && !reset)
            && !(start && reset)
  {
    UserInterface.ButtonLayout();
    UserInterface.ClickedUpgradeIsAffordable(s, mouse);
    UserInterface.ShopButtonsDisjoint(mouse, 1, 2);
  }

  /**
   * The fish tick of `FishManager.update` as seen from the round: the fish
   * born are those the spawn draws plan at `depth` when the spawn is `due`,
   * and placed and then moved by `drift`; the live fish are the old ones
   * and the new ones less those culled where they moved to, the fish in
   * `frozen` (already caught) always kept.
   */
  ghost predicate FishTicked(depth: real, unlocked: seq<Zone>, due: bool, first: FishPopulation.SpawnInput,
                             extraRoll: bool, second: FishPopulation.SpawnInput, drift: Fishes.Fish -> Fishes.Drift,
                             before: seq<Fishes.Fish>, was: map<Fishes.Fish, Rect>, frozen: set<Fishes.Fish>,
                             born: seq<Fishes.Fish>, at: map<Fishes.Fish, Rect>, live: seq<Fishes.Fish>)
  {
    && FishPopulation.BornFrom(born, FishPopulation.TickSpawns(depth, unlocked, due, first, extraRoll, second))
    && FishPopulation.MovedFrom(before, was, at, frozen, drift)
    && (forall f :: f in born ==> f in at && at[f] == f.origin.Moved(drift(f).dx, drift(f).dy))
    && live == FishPopulation.Kept(before + born, at, frozen)
  }

  class Game {
    const economy: Progress.GameState
    const line: Fishing.FishingLine
    const fishes: FishPopulation.FishManager
    const ui: UserInterface.UI
    var currentScreen: Screen
    var roundActive: bool
    var roundStartTime: int
    var roundTimer: int

    /**
     * The parts share one economy, each keeps its own invariant, the line
     * only ever descends, and a round runs only on the main screen.
     */
    predicate Valid()
      reads this, economy, line, fishes, ui
    {
      && line.economy == economy && fishes.economy == economy && ui.economy == economy
      && economy.Valid() && line.Valid() && line.descending && fishes.Valid()
      && (roundActive ==> currentScreen == MainGame)
    }

    /**
     * A new game on the main screen, with no round running; a save record
     * written by the game itself, when given, replaces the initial progress.
     */
    constructor (saved: Option<Progress.SaveData>)
      requires saved.Some? ==> Progress.WellFormed(Progress.Load(Progress.Initial(), saved.value))
      ensures Valid()
      ensures currentScreen == MainGame && !roundActive && roundStartTime == 0 && roundTimer == 0
      ensures economy.Data() == if saved.Some? then Progress.Load(Progress.Initial(), saved.value) else Progress.Initial()
      ensures line.currentDepth == 0.0 && line.caughtFish == [] && fishes.allFish == [] && fishes.caughtFish == []
    {
      var e := new Progress.GameState();
      economy := e;
      line := new Fishing.FishingLine(e, HookWidth, HookHeight);
      fishes := new FishPopulation.FishManager(e);
      ui := new UserInterface.UI(e);
      currentScreen := MainGame;
      roundActive := false;
      roundStartTime := 0;
      roundTimer := 0;
      new;
      if saved.Some? {
        e.LoadGame(saved.value);
      }
    }

    /** `start_round`: the round runs from `now`, with the line and the fish reset. */
    method StartRound(now: int)
      requires Valid() && currentScreen == MainGame
      modifies this`roundActive, this`roundStartTime, line, fishes
      ensures Valid()
      ensures roundActive && roundStartTime == now
      ensures line.currentDepth == 0.0 && line.horizontalOffset == 0 && line.caughtFish == []
      ensures fishes.allFish == [] && fishes.caughtFish == []
      ensures line.hookRect == old(line.hookRect)
      ensures && fishes.lastSpawnTime == old(fishes.lastSpawnTime) && fishes.spawnInterval == old(fishes.spawnInterval)
              && fishes.previousDepth == old(fishes.previousDepth) && fishes.cameraOffsetY == old(fishes.cameraOffsetY)
    {
      roundActive := true;
      roundStartTime := now;
      line.FullReset();
      fishes.ResetRound();
    }

    /** `end_round`: the catch's value is paid into the economy and the results are shown. */
    method EndRound()
      requires Valid()
      modifies this`roundActive, this`currentScreen, economy
      ensures Valid()
      ensures !roundActive && currentScreen == Results
      ensures economy.Data() == Progress.CoinsAdded(old(economy.Data()), Fishes.TotalValue(fishes.caughtFish))
      ensures economy.upgrades == old(economy.upgrades) && economy.unlockedZones == old(economy.unlockedZones)
    {
      roundActive := false;
      var roundValue := fishes.CalculateRoundValue();
      economy.AddCoins(roundValue);
      currentScreen := Results;
    }

    /**
     * `update`, one tick at time `now` with the pointer at `mouse`; the
     * spawn inputs stand for the random draws of the fish spawner.
     */
    method Update(now: int, mouse: Point, first: FishPopulation.SpawnInput, extraRoll: bool,
                  second: FishPopulation.SpawnInput, drift: Fishes.Fish -> Fishes.Drift)
      returns (ghost born: seq<Fishes.Fish>, ghost live: seq<Fishes.Fish>, ghost at: map<Fishes.Fish, Rect>,
               ghost caughtAny: bool)
      requires Valid()
      modifies this, economy, line, fishes, ui, fishes.allFish
      ensures Valid()
      ensures old(currentScreen) == MainGame && old(roundActive) ==>
                && roundTimer == now - old(roundStartTime) && roundStartTime == old(roundStartTime)
                && ui.hoverButton == old(ui.hoverButton)
                && line.horizontalOffset == ClampOffset(mouse.x - Fishing.RodX)
                && line.hookRect.Center() == Fishing.HookCenter(line.horizontalOffset, line.hookHeight)
                && line.currentDepth == Fishing.DescendStep(old(line.currentDepth), line.GetMaxDepth())
                && (roundActive <==> roundTimer < economy.GetRoundDuration() && !line.IsAtCapacity())
                && currentScreen == (if roundActive then MainGame else Results)
                && economy.Data() == if roundActive then old(economy.Data())
                                     else Progress.CoinsAdded(old(economy.Data()), Fishes.TotalValue(fishes.caughtFish))
      ensures old(currentScreen) == MainGame && old(roundActive) ==>
                var due := (now - old(fishes.lastSpawnTime)) as real > FishPopulation.SpawnInterval(line.currentDepth);
                && fishes.lastSpawnTime == (if due then now else old(fishes.lastSpawnTime))
                && FishTicked(line.currentDepth, old(economy.unlockedZones), due, first, extraRoll, second, drift,
                              old(fishes.allFish), old(FishPopulation.Positions(fishes.allFish)),
                              old(FishPopulation.CaughtIn(fishes.allFish)), born, at, live)
                && (forall f :: f in old(fishes.allFish) + born ==> f in at && f.rect == at[f])
                && (forall f :: f in born ==> fresh(f))
                && fishes.previousDepth == line.currentDepth && fishes.spawnInterval == FishPopulation.SpawnInterval(line.currentDepth)
                && fishes.cameraOffsetY == old(fishes.cameraOffsetY) + (line.currentDepth - old(fishes.previousDepth))
                && FishPopulation.ScanOutcome(live, at, old(FishPopulation.CaughtIn(fishes.allFish)), line.hookRect.Center(),
                                              mouse, old(economy.GetHookCapacity()), old(line.caughtFish), line.caughtFish,
                                              old(fishes.caughtFish), fishes.caughtFish, fishes.allFish, caughtAny)
      ensures old(currentScreen) == MainGame && !old(roundActive) ==>
                && roundActive && roundStartTime == now && currentScreen == MainGame && roundTimer == old(roundTimer)
                && economy.Data() == old(economy.Data())
                && line.currentDepth == 0.0 && line.horizontalOffset == 0 && line.caughtFish == []
                && fishes.allFish == [] && fishes.caughtFish == []
                && line.hookRect == old(line.hookRect) && ui.hoverButton == old(ui.hoverButton)
                && fishes.lastSpawnTime == old(fishes.lastSpawnTime) && fishes.spawnInterval == old(fishes.spawnInterval)
                && fishes.previousDepth == old(fishes.previousDepth) && fishes.cameraOffsetY == old(fishes.cameraOffsetY)
      ensures old(currentScreen) == Results ==>
                && currentScreen == Results && roundActive == old(roundActive)
                && economy.Data() == old(economy.Data())
                && unchanged(line, fishes, ui) && unchanged(old(fishes.allFish))
                && roundStartTime == old(roundStartTime) && roundTimer == old(roundTimer)
      ensures old(currentScreen) == Shop ==>
                && currentScreen == Shop && roundActive == old(roundActive)
                && ui.hoverButton == UserInterface.HoverTarget(UserInterface.Buttons, mouse)
                && economy.Data() == old(economy.Data())
                && unchanged(line, fishes) && unchanged(old(fishes.allFish))
                && roundStartTime == old(roundStartTime) && roundTimer == old(roundTimer)
    {
      born, live, at, caughtAny := [], [], map[], false;
      if currentScreen == MainGame {
        if roundActive {
          born, live, at, caughtAny := RunTick(now, mouse, first, extraRoll, second, drift);
        } else {
          StartRound(now);
        }
      } else if currentScreen == Shop {
        ui.UpdateShopHover(mouse);
      }
    }

    /** The body of a tick while a round runs: move, spawn, catch, and end the round when due. */
    method RunTick(now: int, mouse: Point, first: FishPopulation.SpawnInput, extraRoll: bool,
                   second: FishPopulation.SpawnInput, drift: Fishes.Fish -> Fishes.Drift)
      returns (ghost born: seq<Fishes.Fish>, ghost live: seq<Fishes.Fish>, ghost at: map<Fishes.Fish, Rect>,
               ghost caughtAny: bool)
      requires Valid() && currentScreen == MainGame && roundActive
      modifies this`roundTimer, this`roundActive, this`currentScreen, economy, line, fishes, fishes.allFish
      ensures Valid()
      ensures var due := (now - old(fishes.lastSpawnTime)) as real > FishPopulation.SpawnInterval(line.currentDepth);
              && fishes.lastSpawnTime == (if due then now else old(fishes.lastSpawnTime))
              && FishTicked(line.currentDepth, old(economy.unlockedZones), due, first, extraRoll, second, drift,
                            old(fishes.allFish), old(FishPopulation.Positions(fishes.allFish)),
                            old(FishPopulation.CaughtIn(fishes.allFish)), born, at, live)
      ensures forall f :: f in old(fishes.allFish) + born ==> f in at && f.rect == at[f]
      ensures forall f :: f in born ==> fresh(f)
      ensures && fishes.previousDepth == line.currentDepth && fishes.spawnInterval == FishPopulation.SpawnInterval(line.currentDepth)
              && fishes.cameraOffsetY == old(fishes.cameraOffsetY) + (line.currentDepth - old(fishes.previousDepth))
      ensures FishPopulation.ScanOutcome(live, at, old(FishPopulation.CaughtIn(fishes.allFish)), line.hookRect.Center(),
                                         mouse, old(economy.GetHookCapacity()), old(line.caughtFish), line.caughtFish,
                                         old(fishes.caughtFish), fishes.caughtFish, fishes.allFish, caughtAny)
      ensures roundTimer == now - old(roundStartTime)
      ensures line.horizontalOffset == ClampOffset(mouse.x - Fishing.RodX)
      ensures line.hookRect.Center() == Fishing.HookCenter(line.horizontalOffset, line.hookHeight)
      ensures line.currentDepth == Fishing.DescendStep(old(line.currentDepth), line.GetMaxDepth())
      ensures roundActive <==> roundTimer < economy.GetRoundDuration() && !line.IsAtCapacity()
      ensures currentScreen == if roundActive then MainGame else Results
      ensures economy.Data() == if roundActive then old(economy.Data())
                                else Progress.CoinsAdded(old(economy.Data()), Fishes.TotalValue(fishes.caughtFish))
    {
      born, live, at, caughtAny := Play(now, mouse, first, extraRoll, second, drift);
      EndIfDue();
    }

    /** A tick of a running round up to the end test: the timer, the line, the fish and the catch. */
    method Play(now: int, mouse: Point, first: FishPopulation.SpawnInput, extraRoll: bool,
                second: FishPopulation.SpawnInput, drift: Fishes.Fish -> Fishes.Drift)
      returns (ghost born: seq<Fishes.Fish>, ghost live: seq<Fishes.Fish>, ghost at: map<Fishes.Fish, Rect>,
               caughtAny: bool)
      requires Valid() && currentScreen == MainGame && roundActive
      modifies this`roundTimer, line, fishes, fishes.allFish
      ensures Valid()
      ensures var due := (now - old(fishes.lastSpawnTime)) as real > FishPopulation.SpawnInterval(line.currentDepth);
              && fishes.lastSpawnTime == (if due then now else old(fishes.lastSpawnTime))
              && FishTicked(line.currentDepth, economy.unlockedZones, due, first, extraRoll, second, drift,
                            old(fishes.allFish), old(FishPopulation.Positions(fishes.allFish)),
                            old(FishPopulation.CaughtIn(fishes.allFish)), born, at, live)
      ensures forall f :: f in old(fishes.allFish) + born ==> f in at && f.rect == at[f]
      ensures forall f :: f in born ==> fresh(f)
      ensures && fishes.previousDepth == line.currentDepth && fishes.spawnInterval == FishPopulation.SpawnInterval(line.currentDepth)
              && fishes.cameraOffsetY == old(fishes.cameraOffsetY) + (line.currentDepth - old(fishes.previousDepth))
      ensures FishPopulation.ScanOutcome(live, at, old(FishPopulation.CaughtIn(fishes.allFish)), line.hookRect.Center(),
                                         mouse, economy.GetHookCapacity(), old(line.caughtFish), line.caughtFish,
                                         old(fishes.caughtFish), fishes.caughtFish, fishes.allFish, caughtAny)
      ensures roundTimer == now - roundStartTime
      ensures line.horizontalOffset == ClampOffset(mouse.x - Fishing.RodX)
      ensures line.hookRect.Center() == Fishing.HookCenter(line.horizontalOffset, line.hookHeight)
      ensures line.currentDepth == Fishing.DescendStep(old(line.currentDepth), line.GetMaxDepth())
    {
      ghost var before, was, frozen := fishes.allFish, FishPopulation.Positions(fishes.allFish),
                                       FishPopulation.CaughtIn(fishes.allFish);
      roundTimer := now - roundStartTime;
      MoveLine(mouse);
      assert fishes.allFish == before && FishPopulation.Positions(before) == was && FishPopulation.CaughtIn(before) == frozen;
      born, live, at, caughtAny := SpawnAndCatch(now, mouse, first, extraRoll, second, drift);
    }

    /** The end test of a tick: the round ends when its time is up or the hook is full. */
    method EndIfDue()
      requires Valid() && currentScreen == MainGame && roundActive
      modifies this`roundActive, this`currentScreen, economy
      ensures Valid()
      ensures roundActive <==> roundTimer < economy.GetRoundDuration() && !line.IsAtCapacity()
      ensures currentScreen == if roundActive then MainGame else Results
      ensures economy.Data() == if roundActive then old(economy.Data())
                                else Progress.CoinsAdded(old(economy.Data()), Fishes.TotalValue(fishes.caughtFish))
      ensures economy.upgrades == old(economy.upgrades) && economy.unlockedZones == old(economy.unlockedZones)
    {
      if roundTimer >= economy.GetRoundDuration() || line.IsAtCapacity() {
        EndRound();
      }
    }

    /** The line follows the pointer within its reach and takes one step down. */
    method MoveLine(mouse: Point)
      requires Valid()
      modifies line
      ensures Valid()
      ensures line.horizontalOffset == ClampOffset(mouse.x - Fishing.RodX)
      ensures line.currentDepth == Fishing.DescendStep(old(line.currentDepth), line.GetMaxDepth())
      ensures line.hookRect.Center() == Fishing.HookCenter(line.horizontalOffset, line.hookHeight)
      ensures line.caughtFish == old(line.caughtFish)
    {
      line.horizontalOffset := ClampOffset(mouse.x - Fishing.RodX);
      line.Update();
    }

    /**
     * The fish tick at the line's new depth, then the hover catch against
     * the line: `born` are the fish spawned, `live` the fish on screen
     * after the cull and before the catch.
     */
    method SpawnAndCatch(now: int, mouse: Point, first: FishPopulation.SpawnInput, extraRoll: bool,
                         second: FishPopulation.SpawnInput, drift: Fishes.Fish -> Fishes.Drift)
      returns (ghost born: seq<Fishes.Fish>, ghost live: seq<Fishes.Fish>, ghost at: map<Fishes.Fish, Rect>,
               caughtAny: bool)
      requires line.economy == economy && fishes.economy == economy && line.Valid() && fishes.Valid()
      modifies fishes, line`caughtFish, fishes.allFish
      ensures line.Valid() && fishes.Valid()
      ensures && line.currentDepth == old(line.currentDepth) && line.descending == old(line.descending)
              && line.horizontalOffset == old(line.horizontalOffset) && line.hookRect == old(line.hookRect)
      ensures var due := (now - old(fishes.lastSpawnTime)) as real > FishPopulation.SpawnInterval(line.currentDepth);
              && fishes.lastSpawnTime == (if due then now else old(fishes.lastSpawnTime))
              && FishTicked(line.currentDepth, economy.unlockedZones, due, first, extraRoll, second, drift,
                            old(fishes.allFish), old(FishPopulation.Positions(fishes.allFish)),
                            old(FishPopulation.CaughtIn(fishes.allFish)), born, at, live)
      ensures forall f :: f in old(fishes.allFish) + born ==> f in at && f.rect == at[f]
      ensures forall f :: f in born ==> fresh(f)
      ensures && fishes.previousDepth == line.currentDepth && fishes.spawnInterval == FishPopulation.SpawnInterval(line.currentDepth)
              && fishes.cameraOffsetY == old(fishes.cameraOffsetY) + (line.currentDepth - old(fishes.previousDepth))
      ensures FishPopulation.ScanOutcome(live, at, old(FishPopulation.CaughtIn(fishes.allFish)), line.hookRect.Center(),
                                         mouse, economy.GetHookCapacity(), old(line.caughtFish), line.caughtFish,
                                         old(fishes.caughtFish), fishes.caughtFish, fishes.allFish, caughtAny)
    {
      ghost var frozen := FishPopulation.CaughtIn(fishes.allFish);
      born, live, at := FishTick(fishes, line.currentDepth, now, first, extraRoll, second, drift);
      assert FishPopulation.CaughtIn(live) == frozen;
      caughtAny := fishes.CheckCatches(mouse, line, at);
    }

    /**
     * The fish manager's tick at the line's depth, seen from the round: the
     * caught fish stay exactly those caught before, and every live fish is
     * an old one or a new one.
     */
    static method FishTick(fishes: FishPopulation.FishManager, depth: real, now: int, first: FishPopulation.SpawnInput,
                           extraRoll: bool, second: FishPopulation.SpawnInput, drift: Fishes.Fish -> Fishes.Drift)
      returns (ghost born: seq<Fishes.Fish>, ghost live: seq<Fishes.Fish>, ghost at: map<Fishes.Fish, Rect>)
      requires fishes.Valid()
      modifies fishes, fishes.allFish
      ensures fishes.Valid() && live == fishes.allFish && fishes.caughtFish == old(fishes.caughtFish)
      ensures var due := (now - old(fishes.lastSpawnTime)) as real > FishPopulation.SpawnInterval(depth);
              && fishes.lastSpawnTime == (if due then now else old(fishes.lastSpawnTime))
              && FishTicked(depth, fishes.economy.unlockedZones, due, first, extraRoll, second, drift,
                            old(fishes.allFish), old(FishPopulation.Positions(fishes.allFish)),
                            old(FishPopulation.CaughtIn(fishes.allFish)), born, at, live)
      ensures forall f :: f in old(fishes.allFish) + born ==> f in at && f.rect == at[f]
      ensures forall f :: f in live ==> f in at && at[f] == f.rect
      ensures FishPopulation.CaughtIn(live) == old(FishPopulation.CaughtIn(fishes.allFish))
      ensures forall f :: f in born ==> fresh(f)
      ensures forall i :: 0 <= i < |live| ==> live[i] in old(fishes.allFish) || fresh(live[i])
      ensures && fishes.previousDepth == depth && fishes.spawnInterval == FishPopulation.SpawnInterval(depth)
              && fishes.cameraOffsetY == old(fishes.cameraOffsetY) + (depth - old(fishes.previousDepth))
    {
      ghost var before := fishes.allFish;
      born := fishes.Update(depth, now, first, extraRoll, second, drift);
      live := fishes.allFish;
      at := FishPopulation.Positions(before + born);
      FishPopulation.CaughtSurviveTick(before, born, live);
    }

    /** A left click at `mouse` at time `now` (`handle_events`). */
    method HandleClick(mouse: Point, now: int)
      requires Valid()
      modifies this, economy, line, fishes
      ensures Valid()
      ensures roundTimer == old(roundTimer)
      ensures old(currentScreen) == MainGame ==>
                && currentScreen == MainGame && roundActive == old(roundActive)
                && economy.Data() == old(economy.Data())
                && unchanged(line, fishes) && roundStartTime == old(roundStartTime)
      ensures old(currentScreen) == Results ==>
                && currentScreen == (if ui.CheckContinueButton(mouse) then Shop else Results)
                && roundActive == old(roundActive)
                && economy.Data() == old(economy.Data())
                && unchanged(line, fishes) && roundStartTime == old(roundStartTime)
      ensures old(currentScreen) == Shop ==>
                && ShopClicked(old(economy.Data()), economy.Data(), mouse, now)
                && (!ui.CheckStartButton(mouse) ==> unchanged(line, fishes) && roundStartTime == old(roundStartTime))
                && (ui.CheckStartButton(mouse) ==>
                      && line.hookRect == old(line.hookRect)
                      && fishes.lastSpawnTime == old(fishes.lastSpawnTime) && fishes.spawnInterval == old(fishes.spawnInterval)
                      && fishes.previousDepth == old(fishes.previousDepth) && fishes.cameraOffsetY == old(fishes.cameraOffsetY))
    {
      if currentScreen == Results {
        if ui.CheckContinueButton(mouse) {
          currentScreen := Shop;
        }
      } else if currentScreen == Shop {
        ShopClick(mouse, now);
      }
    }

    /**
     * The effect of a shop click: an affordable upgrade under the pointer is
     * bought, the start button starts a round on the main screen, and the
     * reset button restores the initial progress.
     */
    ghost predicate ShopClicked(before: Progress.Snapshot, after: Progress.Snapshot, mouse: Point, now: int)
      reads this, line, fishes
      requires before.upgrades.Keys == UpgradeCosts.Keys
    {
      var bought := UserInterface.UpgradeClick(before, UserInterface.UpgradeButtons, mouse);
      var afterPurchase := if bought.Some? then Progress.UpgradePurchase(before, bought.value).1 else before;
      && after == (if ui.CheckResetButton(mouse) then Progress.Initial() else afterPurchase)
      && currentScreen == (if ui.CheckStartButton(mouse) then MainGame else Shop)
      && (ui.CheckStartButton(mouse) ==>
            && roundActive && roundStartTime == now
            && line.currentDepth == 0.0 && line.horizontalOffset == 0 && line.caughtFish == []
            && fishes.allFish == [] && fishes.caughtFish == [])
      && (!ui.CheckStartButton(mouse) ==> !roundActive)
    }

    /** The upgrade part of a shop click: buy what `check_upgrade_buttons` selects, if anything. */
    method BuyClicked(mouse: Point)
      requires Valid()
      modifies economy
      ensures Valid()
      ensures var bought := UserInterface.UpgradeClick(old(economy.Data()), UserInterface.UpgradeButtons, mouse);
              economy.Data() == if bought.Some? then Progress.UpgradePurchase(old(economy.Data()), bought.value).1
                                else old(economy.Data())
    {
      var clicked := ui.CheckUpgradeButtons(mouse);
      if clicked.Some? {
        var ok := economy.PurchaseUpgrade(clicked.value);
      }
    }

    /** The shop branch of a click: buy, then start, then reset, as the buttons under the pointer say. */
    method ShopClick(mouse: Point, now: int)
      requires Valid() && currentScreen == Shop
      modifies this`currentScreen, this`roundActive, this`roundStartTime, economy, line, fishes
      ensures Valid()
      ensures ShopClicked(old(economy.Data()), economy.Data(), mouse, now)
      ensures !ui.CheckStartButton(mouse) ==> unchanged(line, fishes) && roundStartTime == old(roundStartTime)
      ensures ui.CheckStartButton(mouse) ==>
                && line.hookRect == old(line.hookRect)
                && fishes.lastSpawnTime == old(fishes.lastSpawnTime) && fishes.spawnInterval == old(fishes.spawnInterval)
                && fishes.previousDepth == old(fishes.previousDepth) && fishes.cameraOffsetY == old(fishes.cameraOffsetY)
    {
      BuyClicked(mouse);
      if ui.CheckStartButton(mouse) {
        currentScreen := MainGame;
        StartRound(now);
      }
      if ui.CheckResetButton(mouse) {
        economy.ResetProgress();
      }
    }
  }
}
