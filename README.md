# Vibe Coder's Catch — a verified model of the game's core

The game is a pygame fishing game. A line is cast from a rod and sinks half a
unit per tick until it reaches its maximum depth. Fish spawn near the bottom of
the screen, chosen from the depth zone the hook is in and from the unlocked
zones next to it. Each tick the uncaught fish drift: they swim sideways and
upwards, and they shift with the camera as the line sinks. A fish is caught
when it is close to the hook, or when the pointer is on it and it is near the
hook. The round ends when the timer
runs out or the hook is full. The catch's value is then paid in coins, which
the shop spends on three upgrades: line length, hook capacity and round timer.

The model follows the program's structure, one Dafny file per source file:

- `shared.dfy` (module `Shared`): `Option`, points, pygame-style rectangles
  (half-open `collidepoint`, `center` with floor division) and a sequence
  difference.
- `config.dfy` (module `Config`): the configuration constants, the upgrade
  cost tables and the depth-zone table, with lemmas on their shape.
- `game_state.dfy` (module `Progress`): the player's progress. There is a
  `Snapshot` value with pure functions for every transition (purchase,
  power-ups, coins, stats, save and load), and a class `GameState` whose
  methods update fields in place. Each method is proved equal to its function.
- `fishing.dfy` (module `Fishing`): the fishing line as a class with depth,
  direction, offset, hook rectangle and the fish on the hook.
- `fish.dfy` (modules `Fishes` and `FishPopulation`): the species catalog and
  the `Fish` objects and their motion; then the `FishManager`, which covers
  spawn planning, the spawn interval, moving the fish, culling, the catch
  rule and the round value, plus the background-zone choice.
- `ui.dfy` (module `UserInterface`): the button layout, hover tracking, which
  upgrade a click buys, the shop's price labels and the in-game seconds left.
- `main.dfy` (module `Round`): the `Game` controller. It has three screens,
  round start/tick/end, and what a left click does on each screen.

Inputs the program reads from the outside world become parameters:

- the clock (`now`, milliseconds). One value stands for both clock reads of
  a tick: the round timer's (main.py:126) and the spawn clock's
  (fish.py:280);
- the pointer position;
- the random draws of the spawner (`SpawnInput`: indices taken modulo the list
  length, and a y pick within the band; `extraRoll` for the 30% extra spawn).
  A new fish's width and height are also free per spawn in `SpawnInput`. In
  the source they come from the species' sprite, or are the 40 × 20
  placeholder when the sprite is missing (fish.py:45-63);
- each fish's motion in a tick (`Drift`, a whole-pixel move per fish, chosen
  by the caller);
- the save file's parsed contents (`SaveData`, all fields optional).

Depth is a `real`, so the 0.5 and 5 unit steps are exact. Python's unbounded
integers are Dafny's `int`. Every division in the model is by a positive
constant (2 for a centre, 1000 for seconds), and for a positive divisor
Python's floor division `//` agrees with Dafny's Euclidean `/`, whatever the
sign of the dividend (the time left, `duration - timer`, can be negative). The catch distance test is stated on squared
integer distances (`d <= 30` iff `d² <= 900`, `d <= 80` iff `d² <= 6400`).

## Model

| member | source | states |
|---|---|---|
| Shared.Without | fish.py:424-429 | removing caught fish never lengthens the list and keeps it free of duplicates |
| Shared.WithoutMembers | fish.py:424-429 | a fish is in the remaining list exactly when it was in the list and was not removed |
| Shared.Rect.WithCenterX | fishing.py:86-87 | re-centring the hook moves only its x: the new centre x is the target; y, width and height are unchanged |
| Config.ZoneIndex | config.py:44-50 | every zone has a position in the table, where the table holds that zone |
| Config.CostTablesHaveFiveTiers | config.py:32-36 | exactly the three upgrades have cost tables, and each has five tiers |
| Config.CostsStrictlyIncrease | config.py:32-36 | each next tier of an upgrade costs strictly more |
| Config.ZonesContiguous | config.py:44-50 | the five zones are in depth order, each starts one unit after the previous ends, spanning 0 to 500 |
| Config.ZonesDisjoint | config.py:44-50 | no depth lies in two zones |
| Config.ZonesCoverWholeDepths | config.py:44-50 | every whole depth from 0 to 500 lies in some zone |
| Config.GapsBelongToNoZone | config.py:44-50 | a fractional depth strictly between 100k and 100k+1 (k = 1..4) lies in no zone, since the bands are inclusive integer ranges |
| Config.FishSpeedsOrdered | config.py:67-68 | the minimum fish speed does not exceed the maximum |
| Progress.UnlockedZonesAt | game_state.py:127-132 | the unlocked zones are a non-empty prefix of the zone table; a zone is unlocked iff its index is at most the line-length level |
| Progress.InitialWellFormed | game_state.py:12-37 | a new game is well formed and has only the surface unlocked |
| Progress.UpgradePurchase | game_state.py:48-74 | a purchase succeeds iff the upgrade exists, is below its top tier and the coins cover the tier's cost. On success the cost is paid, the level rises by one and the zones are recomputed. On refusal nothing changes. Well-formedness is preserved |
| Progress.PurchaseOutcome | game_state.py:48-74 | an unrefused purchase yields exactly the new snapshot with every field written out |
| Progress.MaxedUpgradeRefused | game_state.py:58-60 | an upgrade at level 5 is refused and the state is unchanged |
| Progress.RepeatedPurchaseStops | game_state.py:48-74 | however many purchases are made, the level never exceeds 5, and at 5 further purchases change nothing |
| Progress.PurchaseMany | game_state.py:48-74 | a run of purchases keeps the state well formed and never increases the coins |
| Progress.PowerUpPurchase | game_state.py:76-90 | buying a power-up succeeds iff it exists and the coins cover the cost; on success the cost is paid and one is added; otherwise nothing changes |
| Progress.PowerUpUse | game_state.py:92-105 | using a power-up succeeds iff one is held; on success one is removed; otherwise nothing changes |
| Progress.BuyThenUsePowerUp | game_state.py:76-105 | buying then using a power-up leaves the inventory as it was, with the cost paid |
| Progress.BaseLimits | game_state.py:107-125 | at level 0 the maximum depth is 300, the capacity 4 and the round 10000 ms |
| Progress.LimitsStrictlyIncrease | game_state.py:107-125 | each upgrade level strictly raises its limit, by 100 units, 1 fish and 5000 ms respectively |
| Progress.CoinsAdded | game_state.py:39-42 | adding coins raises both the balance and the total earned by the amount and changes nothing else |
| Progress.StatsUpdated | game_state.py:138-142 | the fish count grows by the catch. The deepest depth becomes the larger of the old record and the new depth. Nothing else changes |
| Progress.Save | game_state.py:144-157 | the saved record holds every field of the state, the statistics included |
| Progress.Load | game_state.py:165-187 | a present field is taken as saved. A missing field takes its initial value, except the two dictionaries, which keep their current value. A missing statistic in a present `stats` record is zero |
| Progress.SaveLoadRoundTrip | game_state.py:144-187 | loading what was saved restores the saved state exactly, whatever the state before the load |
| Progress.GameState.constructor | game_state.py:12-37 | a new game state is valid and equals the initial snapshot |
| Progress.GameState.AddCoins | game_state.py:39-42 | the new state is `CoinsAdded` of the old one, and validity is kept |
| Progress.GameState.PurchaseUpgrade | game_state.py:48-74 | the result and new state are exactly `UpgradePurchase` of the old state; validity is kept |
| Progress.GameState.PurchasePowerUp | game_state.py:76-90 | the result and new state are exactly `PowerUpPurchase` of the old state |
| Progress.GameState.UsePowerUp | game_state.py:92-105 | the result and new state are exactly `PowerUpUse` of the old state |
| Progress.GameState.GetMaxDepth | game_state.py:107-111 | the maximum depth for the current line level, between 300 and 800 |
| Progress.GameState.GetHookCapacity | game_state.py:115-119 | the capacity for the current hook level, between 4 and 9 |
| Progress.GameState.GetRoundDuration | game_state.py:121-125 | the round length for the current timer level, between 10000 and 35000 ms |
| Progress.GameState.UpdateUnlockedZones | game_state.py:127-132 | the unlocked zones become those the line-length level allows |
| Progress.GameState.GetUnlockedZones | game_state.py:134-136 | the surface is always unlocked, and a zone is unlocked iff the line-length level reaches its index |
| Progress.GameState.UpdateStats | game_state.py:138-142 | the new state is `StatsUpdated` of the old one, and validity is kept |
| Progress.GameState.LoadGame | game_state.py:165-187 | the new state is the saved record merged into the old state by `Load` |
| Progress.GameState.ResetProgress | game_state.py:189-215 | the state is valid and equal to a new game's |
| Fishing.DescendStep | fishing.py:63-71 | one descending tick adds the line speed, clamped at the maximum depth, never beyond it |
| Fishing.DescentFromSurface | fishing.py:63-71 | after n descending ticks from the surface the depth is min(0.5·n, maximum depth) |
| Fishing.RetractStep | fishing.py:72-82 | one retracting tick rises by the reel speed; the line resets at depth 0 exactly when it would reach or pass the surface |
| Fishing.FishingLine.constructor | fishing.py:13-36 | a new line is at the surface, descending, with no offset and no fish, its hook centred under the rod at mid-screen |
| Fishing.FishingLine.GetMaxDepth | fishing.py:134-138 | the economy's maximum depth, or 300 without an economy |
| Fishing.FishingLine.GetHookCapacity | fishing.py:143-147 | the economy's capacity, or 4 without an economy |
| Fishing.FishingLine.Update | fishing.py:58-87 | descending follows `DescendStep`, retracting follows `RetractStep` and resets the line at the surface, and the hook is re-centred at rod x plus offset; the invariant is kept |
| Fishing.FishingLine.AddCaughtFish | fishing.py:89-97 | a fish is appended iff the hook has room and does not hold it; the hook never exceeds its capacity |
| Fishing.FishingLine.IsAtCapacity | fishing.py:99-101 | the hook is full iff it holds at least the economy's capacity, or 4 fish without an economy |
| Fishing.FishingLine.ReachedMaxDepth | fishing.py:103-105 | true iff retracting at or below the maximum depth; never while descending |
| Fishing.FishingLine.Reset | fishing.py:119-125 | descending, no offset, no fish, and the depth is unchanged |
| Fishing.FishingLine.FullReset | fishing.py:127-132 | back at depth 0, descending, with no offset and no fish |
| Fishes.CatalogCoversEveryZone | fish.py:143-209 | every zone has at least one species, and every species is worth something |
| Fishes.Fish.constructor | fish.py:13-43 | a new fish swims from off-screen, from the right edge when leftward and the left edge otherwise, with a y inside the spawn band; it starts at its spawn position |
| Fishes.Fish.Swim | fish.py:65-74 | an uncaught fish moves by its drift, its centre shifted by exactly that much and its size kept; a caught fish stays where it is |
| Fishes.Fish.Catch | fish.py:84-89 | catching reports whether the fish was not caught before, and marks it caught |
| Fishes.TotalValue | fish.py:443-445 | the round's value is non-negative and at least the value of the last fish |
| Fishes.TotalValueAppend | fish.py:443-445 | the value of two catches together is the sum of their values |
| Fishes.ClownfishAndTuna | fish.py:143-209 | a worked example, not a general property: a clownfish and a tuna are worth 60 together |
| FishPopulation.LookupZone | fish.py:306-311 | the table lookup returns the first band containing the depth, or none when no band does |
| FishPopulation.CurrentZone | fish.py:306-311 | the zone of a depth in the table is that zone; any other depth counts as the surface |
| FishPopulation.DepthsOutsideTableSpawnAtSurface | fish.py:306-311 | deeper than 500, and in the gap between 100 and 101, the spawner counts the hook as at the surface |
| FishPopulation.SpawnZone | fish.py:313-315 | the spawn zone is the current zone when unlocked, otherwise the first unlocked zone |
| FishPopulation.CandidateZones | fish.py:317-334 | the spawn zone comes first, followed by exactly the unlocked zones next to it, with no repeats, and never empty |
| FishPopulation.NativeTo | fish.py:349 | the species native to a zone are exactly those in the list whose range is that zone |
| FishPopulation.SpeciesPool | fish.py:344-356 | the pool is never empty; deeper than 500 it is the whole catalog, otherwise exactly the species native to the zone |
| FishPopulation.SpawnBand | fish.py:369-389 | the spawn band of the zone with index i is 200 pixels tall, from floor(450 − 12.5·i) to floor(650 − 12.5·i) |
| FishPopulation.DeeperZonesSpawnHigher | fish.py:378-386 | deeper zones spawn strictly higher on the screen |
| FishPopulation.SpawnInterval | fish.py:273-277 | the interval is 1000 ms at the surface, 500 ms at depth 500 and deeper, and in between for depths in between |
| FishPopulation.SpawnIntervalNonIncreasing | fish.py:273-277 | deeper never spawns less often |
| FishPopulation.PlanSpawn | fish.py:297-393 | a spawn is planned iff some zone is unlocked |
| FishPopulation.PlanSpawnChoices | fish.py:317-389 | a planned spawn takes a candidate zone, which is unlocked, a species from that zone's pool, and that zone's band |
| FishPopulation.TickSpawnCount | fish.py:281-287 | a due tick spawns one fish, or two deeper than 200 when the extra roll comes up, and none only when no zone is unlocked; each spawn follows the plan of its own draw, the first draw first |
| FishPopulation.EveryCandidateZoneReachable | fish.py:336-337 | every candidate zone is chosen by some random draw |
| FishPopulation.EverySpeciesReachableBelow500 | fish.py:344-346 | deeper than 500, every species in the catalog can spawn |
| FishPopulation.CatchFires | fish.py:412-422 | a fish is taken within 30 of the hook, or within 80 when the pointer is on it; never beyond 80 |
| FishPopulation.Dist2 | fish.py:412-416 | the squared distance between two centres is zero exactly when they coincide, and at least the square of either axis's difference |
| FishPopulation.Dist2Symmetric | fish.py:412-416 | the squared distance does not depend on which centre comes first |
| FishPopulation.SquaredDistanceTest | fish.py:416-422 | comparing the square-root distance with a radius decides the same as comparing the squared distance with the squared radius |
| FishPopulation.CatchDistanceExamples | fish.py:418-422 | worked examples, not a general property: a fish 25 from the hook is always taken; one 100 away never is |
| FishPopulation.DriftOntoHookCatches | fish.py:412-422 | a fish whose drift brings its centre onto the hook is taken, wherever the pointer is |
| FishPopulation.CaughtIn | fish.py:407-410 | the fish the scan skips are exactly the listed fish marked caught |
| FishPopulation.Selected | fish.py:407-422 | with a given set of fish already caught and the fish at given positions, a fish is selected iff it is not in that set and the catch rule fires for it where it is |
| FishPopulation.Eligibility | fish.py:407-422 | a fish is eligible iff it is not yet caught and the catch rule fires for it |
| FishPopulation.Accepted | fish.py:424-429 | the fish added to the hook never take it past capacity, and a full hook takes none |
| FishPopulation.AcceptedAreEligible | fish.py:424-429 | every fish added to the hook was eligible |
| FishPopulation.AcceptedKeepsHookDistinct | fish.py:424-429 | the hook never holds a fish twice |
| FishPopulation.AmpleRoomAcceptsAllEligible | fish.py:424-429 | when the hook has room for all, every eligible fish is taken |
| Fishes.Fish.OffScreen | fish.py:79-82 | the kill test of `Fish.update`: past the far edge in the swimming direction, or with its top below the screen |
| FishPopulation.NewFishOffScreenOnlyBelow | fish.py:79-82 | a fish just built from a spawn plan fails the kill test iff it lies below the screen, since it starts at the edge it swims away from |
| FishPopulation.Culled | fish.py:290-295 | a fish is removed iff it is uncaught and fails the kill test or lies more than 100 above or below the screen |
| FishPopulation.MovedFrom | fish.py:65-74 | every fish of the list moved by its drift from where it was, except the caught ones, which stayed put |
| FishPopulation.Kept | fish.py:290-295 | with the fish at given positions, the kept fish are exactly those of the list already caught or not astray there, with no repeats when the list has none |
| FishPopulation.Survivors | fish.py:290-295 | the fish left after culling are exactly the ones not culled, with no repeats |
| FishPopulation.SpawnedBelowScreenCulled | fish.py:373-376 | the surface band reaches below the screen, and a new fish placed there is culled in the tick that spawns it |
| FishPopulation.CaughtSurviveTick | fish.py:248-295 | across a fish tick the caught fish stay exactly those caught before, since new fish are uncaught and caught fish are never culled; the survivors are the fish kept where they moved to, with those frozen |
| FishPopulation.FishManager.constructor | fish.py:120-141 | a new manager has no fish, a spawn interval of 1000 ms, and the clock, depth and camera at zero |
| FishPopulation.FishManager.SpawnFish | fish.py:297-393 | when a spawn is planned, exactly one new uncaught fish is appended: the plan's species, a y in the plan's band, the draw's direction and size, entering at the edge it swims away from. Otherwise nothing changes |
| FishPopulation.FishManager.MoveFish | fish.py:289-290 | every uncaught fish moves by its drift and every caught one stays put (`MovedFrom`) |
| FishPopulation.FishManager.Cull | fish.py:292-295 | the live list becomes `Survivors` of the old one |
| FishPopulation.FishManager.Update | fish.py:248-295 | the depth and camera are tracked, and the interval is `SpawnInterval`. The spawn clock restarts iff the interval has passed, and then the new fish are built from `TickSpawns`' plans. Old and new fish move by their drifts, the caught ones staying put, and each new fish ends at its drift from its spawn position. The live fish are `Survivors` of the old and the new where they moved to. The caught list is untouched |
| FishPopulation.FishManager.TrackDepth | fish.py:250-277 | the previous depth becomes the current one, the camera offset moves by the change, and the spawn interval becomes `SpawnInterval` of the depth |
| FishPopulation.FishManager.SpawnMoveCull | fish.py:279-295 | spawning when due, moving and culling: the clock rule, the new fish as planned, the motion of old and new, and the survivors where they moved to |
| FishPopulation.FishManager.SpawnAndMove | fish.py:279-289 | spawning when due, then moving every fish: the clock rule, the new fish as planned and appended, each fish moved by its drift unless caught |
| FishPopulation.FishManager.SpawnIfDue | fish.py:279-287 | the clock restarts and fish spawn iff the interval has passed; the new fish are appended as `TickSpawns` plans them |
| FishPopulation.FishManager.SpawnRound | fish.py:281-287 | a due spawn appends the fish of the first draw, then those of the second deeper than 200 on the extra roll, each as its plan says |
| FishPopulation.FishManager.SpawnTwo | fish.py:283-287 | two spawns in a row append the first draw's fish and then the second's |
| FishPopulation.FishManager.CheckCatches | fish.py:395-431 | with the hook at the line's hook centre and each fish where it now is, the hook and the round's catch both gain exactly the accepted eligible fish, in scan order, which leave the live list. Every eligible fish is marked caught, even one the full hook refused. The result says whether any was taken |
| FishPopulation.ScanOutcome | fish.py:395-431 | the outcome of one catch scan at given fish positions and hook centre, as `CheckCatches` states it |
| FishPopulation.FishManager.ScanForCatches | fish.py:407-429 | the fish accepted are `Accepted` of the scan under `Eligibility` at its start, appended to the hook; every eligible fish ends up caught |
| FishPopulation.FishManager.ScanStep | fish.py:424-429 | one fish of the scan extends the accepted list as `Accepted` does, and marks only that fish |
| FishPopulation.FishManager.TryCatch | fish.py:424-429 | an uncaught fish the catch rule selects is marked caught, and is added iff the hook has room and does not hold it |
| FishPopulation.FishManager.ResetRound | fish.py:433-437 | no live fish and no caught fish |
| FishPopulation.FishManager.CalculateRoundValue | fish.py:443-445 | the round's value is `TotalValue` of the caught fish |
| FishPopulation.BackgroundZone | fish.py:451-477 | the background zone is the current zone. In the last 20 units of a band it blends into the next zone by a linear ramp in [0, 1]. Deeper than 500 it is the abyss with no blend |
| FishPopulation.DeepBackgroundAndSpawnZoneDiffer | fish.py:473-477 | deeper than 500 the background shows the abyss while the spawner's zone lookup falls back to the surface |
| UserInterface.ButtonLayout | ui.py:38-73 | the button rectangles: continue at (300, 500), start at (300, 450), reset at (300, 515), and upgrades at x 590 from y 180, 70 apart, all 200 by 50 |
| UserInterface.UpgradeHitIsFirst | ui.py:63-73 | the upgrade buttons do not overlap: an upgrade button under the pointer is the first one the scan hits |
| UserInterface.FirstHit | ui.py:317-320 | the first button in order whose rectangle holds the point, or none when none does |
| UserInterface.UpgradeClick | ui.py:330-346 | the first upgrade button under the pointer decides. A click selects it iff that purchase would succeed |
| UserInterface.ClickedUpgradeIsAffordable | ui.py:330-346 | a selected upgrade is one whose button is under the pointer, and buying it succeeds |
| UserInterface.UpgradeOffer | ui.py:250-259 | "MAX" is shown iff the upgrade is at its top level, otherwise the next tier's price. It is affordable iff the purchase would succeed. It is greyed out iff priced and unaffordable |
| UserInterface.Highlighted | ui.py:287 | an upgrade button is lit iff it is hovered and its purchase would succeed |
| UserInterface.TimeLeft | ui.py:108 | whole seconds left, floored and never negative; zero iff less than a second remains |
| UserInterface.ShopButtonsDisjoint | ui.py:38-73 | no point is on two of the shop's own buttons |
| UserInterface.ContinueShadowsReset | ui.py:312-320 | the results screen's continue button overlaps the shop's reset button, and on the overlap the shop hover reports "continue" |
| UserInterface.UI.constructor | ui.py:12-36 | a new UI hovers over nothing |
| UserInterface.UI.UpdateShopHover | ui.py:312-320 | the hovered button becomes the first button under the pointer, or none |
| UserInterface.UI.CheckContinueButton | ui.py:322-324 | true iff the pointer is in [300, 500) × [500, 550) |
| UserInterface.UI.CheckStartButton | ui.py:326-328 | true iff the pointer is in [300, 500) × [450, 500) |
| UserInterface.UI.CheckResetButton | ui.py:348-350 | true iff the pointer is in [300, 500) × [515, 565) |
| UserInterface.UI.CheckUpgradeButtons | ui.py:330-346 | the first upgrade button under the pointer decides: its id when buying that upgrade would succeed, otherwise none. So a click on an upgrade button returns its id iff it is below its top level and affordable. A returned upgrade can be bought right now, and nothing is returned off the upgrade buttons |
| UserInterface.UI.GameTimeLeft | ui.py:105-108 | the seconds shown are `TimeLeft` of the round duration. Once the round runs this is at most 35, and it is 0 once the timer reaches the duration |
| Round.ClampOffset | main.py:129-140 | the offset is the pointer's distance from the rod, saturated at ±350 |
| Round.ShopClickActsOnce | main.py:102-116 | on the shop screen, buying, starting and resetting exclude each other: one click acts on at most one button |
| Round.Game.constructor | main.py:29-53 | a new game is on the main screen with no round running and everything empty. Its progress is the loaded save, or a new game's |
| Round.Game.StartRound | main.py:55-64 | the round runs from `now`, with the line at the surface and no fish anywhere; the hook rectangle and the manager's clock, interval, depth and camera keep their values |
| Round.Game.EndRound | main.py:69-78 | the round stops, the results screen shows, and the catch's `TotalValue` is paid in |
| Round.Game.Update | main.py:118-168 | per screen, as listed below the table: a running round moves the line and its hook, ticks and moves the fish, catches at the hook's new centre, and ends iff time is up or the hook is full, paying in the catch; the round's start time and the hover are kept, and the fish manager's depth, camera and spawn interval follow the line's new depth; an idle main screen starts a round with the line and the fish reset; the results screen is unchanged; the shop only updates its hover |
| Round.Game.RunTick | main.py:123-157 | one tick of a running round, as in `Update`'s first case, with the start time kept |
| Round.Game.Play | main.py:125-149 | the timer, the line and hook move, the fish tick at the line's new depth (depth tracking included) and the catch at the hook's new centre, as in `Update`'s first case |
| Round.Game.EndIfDue | main.py:153-157 | the round ends iff its time is up or the hook is full, and the catch is then paid in; upgrades and zones are unchanged |
| Round.Game.SpawnAndCatch | main.py:145-149 | the fish tick at the line's depth (`FishTicked`), then the catch scan over the surviving fish where they moved to, at the hook's centre (`ScanOutcome`); the manager's depth tracking as in `FishTick`; the line is untouched |
| Round.FishTicked | fish.py:248-295 | the manager's tick seen from the round: the born fish as the spawn plans say, old and new moved by their drifts, the survivors kept where they moved to |
| Round.Game.FishTick | main.py:145-146 | the manager's tick as `FishTicked` states it, with the positions the fish moved to; the manager's previous depth becomes the depth, its camera moves by the change and its spawn interval is `SpawnInterval` of the depth; the caught fish and the caught list are unchanged |
| Round.Game.MoveLine | main.py:129-143 | the offset is `ClampOffset` of the pointer, the hook's centre hangs at rod x plus that offset, and the line takes one `DescendStep` |
| Round.Game.HandleClick | main.py:93-116 | per screen, as listed below the table: nothing on the main screen; the results screen moves to the shop iff "continue" is clicked; the shop buys, starts and resets as `ShopClicked` says; the parts a click does not touch keep their values |
| Round.Game.BuyClicked | main.py:103-106 | the progress becomes the purchase of what `UpgradeClick` selects, or is unchanged |
| Round.Game.ShopClick | main.py:102-116 | the new state is the one `ShopClicked` describes, and the line and fish are untouched unless a round starts |

`Round.Game.Update` has one case per screen:

- **Running round.** The timer is `now` minus the start time. The line follows
  `ClampOffset` and `DescendStep`, and the hook's centre hangs at rod x plus
  the offset. The start time and the hover stay as they were. The fish
  manager remembers the line's new depth, moves its camera by the change and
  sets the spawn interval for that depth. The fish tick is `FishTicked` and the catch scan is
  `ScanOutcome` at the hook's new centre and the fish's new positions. The
  round goes on iff time remains and the hook is not full; otherwise the
  results screen shows and the catch is paid in.
- **Idle main screen.** A round starts at `now`; the hook rectangle and the
  fish manager's clock, interval, depth and camera are untouched, and so is
  the hover.
- **Results screen.** Nothing changes, the hover included.
- **Shop screen.** The hover follows the pointer, and nothing else changes.

`Round.Game.HandleClick`:

- **Main screen.** A click does nothing.
- **Results screen.** A click moves to the shop iff it is on "continue".
- **Shop screen.** An affordable upgrade under the pointer is bought. "Start"
  starts a round on the main screen. "Reset" restores a new game's progress.

## Left out

- Drawing is not modelled: every `draw*` method, fonts, images and their placeholder fallbacks, animation frames, the zone-transition overlay and the rendering of the screens. `BackgroundZone` models only the zone and blend choice.
- `sound.py` is not part of this model. Its only effect is playing effects and music.
- `player.py` is not part of this model. Only the rod's x position (`PLAYER_POS_X + 20`, player.py:35) is used, as the constant `Fishing.RodX`.
- The event loop, `quit_game`, the Escape key, `run`, the frame clock and the window are left out. Clicks other than the left button do nothing and are not modelled.
- Debug printing is left out.
- File I/O is left out. `save_game` is the pure function `Progress.Save`, and `load_game` merges an already parsed record (`Progress.Load`). The JSON file, a missing file and the exception handler are not modelled. The save written after a reset is therefore not modelled either.
- Round.Game.constructor: requires the loaded record to give a well-formed state, as every record written by `save_game` does (see `SaveLoadRoundTrip`). A hand-edited file can make the source fail. A missing upgrade key raises a lookup error in `get_max_depth` and its siblings. A level of -6 or below raises an index error where a price is read: in `draw_upgrades` (ui.py:257), `check_upgrade_buttons` (ui.py:340) and `purchase_upgrade` (game_state.py:63). A level from -5 to -1 reads a price counted from the last tier. A level at or above the number of tiers is refused (game_state.py:59), and `get_max_depth` and the zone count (game_state.py:131) accept any level. The model does not cover such states.
- Progress.GameState.LoadGame: does not promise the game state's invariant afterwards. The unlocked zones are taken from the file as written, and the levels are not checked, exactly as in the source.
- Fish motion is a parameter. The source moves an uncaught fish by its speed sideways and half its speed upwards with a random jitter (fish.py:65-74), and shifts the uncaught fish already alive by three times the depth change with a random ±2 (fish.py:256-266). The model folds both into one whole-pixel `Drift` per fish and tick, chosen by the caller, and applied after the spawn. How the drift follows from the speed, the depth change and the random draws is not modelled, and neither is pygame's truncation of the float moves into the integer rectangle. The kill test of `Fish.update` and the cull that follows are applied where the fish have moved to, as in the source.
- Randomness is a parameter. The zone, the species, the direction and the y within the band are picks in `SpawnInput`, and the 30% extra spawn deeper than 200 is the boolean `extraRoll`. Rarity weighting is not modelled, because the source picks uniformly.
- The hook image's size comes from an asset. The model takes the width and height as parameters, and the game uses the placeholder size `HOOK_WIDTH` × `HOOK_HEIGHT`.
- `start_round` does not reset `round_timer`. Until the first tick, the timer keeps the last round's value. The model keeps this behaviour.
- `update_stats`, `purchase_power_up` and `use_power_up` are never called by the game loop. They are modelled for their own contracts.
- Getter methods that only return a field (`get_coins`, `get_hook_rect`, `get_current_depth`, `get_caught_fish`, `get_name`, `get_rarity`) are read as fields.
- The `if not zone_depth` and `if not valid_fish` early returns in `spawn_fish` are never taken. `SpeciesPool` proves the pool is never empty and every chosen zone is in the table. The fallback to all unlocked zones is likewise dead (see `CandidateZones`).
