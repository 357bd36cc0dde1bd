/** Fish species and individual live fish. */
module Fishes {
  import opened Shared
  import opened Config

  datatype Rarity = Common | Uncommon | Rare | Epic | Legendary

  /** A catalog entry: the species' name, sprite, rarity, coin value and native zone. */
  datatype Species = Species(name: string, image: string, rarity: Rarity, value: nat, depthRange: Zone)

  /** The nine species, in the order of `initialize_fish_data`. */
  const Catalog: seq<Species> := [
    Species("Clownfish", "fish/clownfish.png", Common, 10, Surface),
    Species("Blue Tang", "fish/blue_tang.png", Common, 15, Surface),
    Species("Yellowtail", "fish/yellowtail.png", Uncommon, 25, Shallows),
    Species("Grouper", "fish/grouper.png", Uncommon, 35, Shallows),
    Species("Tuna", "fish/tuna.png", Rare, 50, MidWater),
    Species("Swordfish", "fish/swordfish.png", Rare, 75, MidWater),
    Species("Angler", "fish/angler.png", Epic, 100, DeepSea),
    Species("Oarfish", "fish/oarfish.png", Epic, 150, DeepSea),
    Species("Kraken", "fish/kraken.png", Legendary, 300, Abyss)
  ]

  /** Every zone has a native species and every species is worth something. */
  lemma CatalogCoversEveryZone(z: Zone)
    ensures exists i :: 0 <= i < |Catalog| && Catalog[i].depthRange == z
    ensures forall i :: 0 <= i < |Catalog| ==> Catalog[i].value > 0
  {
    var i := match z
      case Surface => 0
      case Shallows => 2
      case MidWater => 4
      case DeepSea => 6
      case Abyss => 8;
    assert Catalog[i].depthRange == z;
  }

  /**
   * How far a fish moves in one tick, in whole pixels: the camera shift, its
   * own swim and the random jitter together, after rounding to the integer
   * rectangle.
   */
  datatype Drift = Drift(dx: int, dy: int)

  /**
   * A live fish: its species, direction and the rectangle it entered at
   * (`origin`) are fixed; its rectangle and caught flag change.
   */
  class Fish {
    const species: Species
    const direction: int
    const origin: Rect
    var rect: Rect
    var caught: bool

    /**
     * A fish enters at the edge it swims away from, at a height drawn from
     * the inclusive band `[low, high]`.
     */
    constructor (data: Species, low: int, high: int, leftward: bool, yPick: nat, width: nat, height: nat)
      requires low <= high
      ensures species == data && !caught
      ensures direction == (if leftward then -1 else 1)
      ensures low <= rect.y <= high && rect.w == width && rect.h == height
      ensures rect.x == if leftward then ScreenWidth + width else -(width as int)
      ensures origin == rect
    {
      species := data;
      direction := if leftward then -1 else 1;
      var y := low + yPick % (high - low + 1);
      origin := Rect(if leftward then ScreenWidth + width else -(width as int), y, width, height);
      rect := origin;
      caught := false;
    }

    /** Marks the fish caught; only the first call reports success. */
    method Catch() returns (first: bool)
      modifies this`caught
      ensures first == !old(caught)
      ensures caught
    {
      if !caught {
        caught := true;
        return true;
      }
      return false;
    }

    /** The motion of `Fish.update`: an uncaught fish moves by `d`, a caught one stays put. */
    method Swim(d: Drift)
      modifies this`rect
      ensures rect == if caught then old(rect) else old(rect).Moved(d.dx, d.dy)
    {
      if !caught {
        rect := rect.Moved(d.dx, d.dy);
      }
    }

    /** The off-screen test of `Fish.update` where the fish is now. */
    predicate OffScreen()
      reads this`rect
    {
      OffScreenAt(direction, rect)
    }

    function Value(): nat {
      species.value
    }
  }

  /**
   * The off-screen test of `Fish.update` for a fish swimming in `direction`
   * at `r`: past the far edge, or below the screen.
   */
  predicate OffScreenAt(direction: int, r: Rect)
  {
    || (direction == -1 && r.Right() < 0)
    || (direction == 1 && r.x > ScreenWidth)
    || r.y > ScreenHeight
  }

  /** The coin value of a list of fish (`calculate_round_value`). */
  function TotalValue(fs: seq<Fish>): (v: int)
    ensures v >= 0
    ensures fs != [] ==> v >= fs[|fs| - 1].Value()
  {
    if fs == [] then 0 else TotalValue(fs[..|fs| - 1]) + fs[|fs| - 1].Value()
  }

  /** Round value is additive: catching more fish adds exactly their values. */
  lemma {:induction false} TotalValueAppend(a: seq<Fish>, b: seq<Fish>)
    ensures TotalValue(a + b) == TotalValue(a) + TotalValue(b)
  {
    if b != [] {
      var n := |b| - 1;
      assert (a + b)[..|a + b| - 1] == a + b[..n];
      TotalValueAppend(a, b[..n]);
    } else {
      assert a + b == a;
    }
  }

  /** A Clownfish and a Tuna make a round worth 60 coins. */
  lemma ClownfishAndTuna(fs: seq<Fish>)
    requires |fs| == 2 && fs[0].species == Catalog[0] && fs[1].species == Catalog[4]
    ensures TotalValue(fs) == 60
  {
    assert fs[..1][..0] == [];
    assert TotalValue(fs[..1]) == 10;
    assert fs[..|fs| - 1] == fs[..1];
  }
}

/**
 * The fish population: spawning by zone and depth, culling, catching
 * against the hook and the round's value.
 */
module FishPopulation {
  import opened Shared
  import opened Config
  import opened Fishes
  import Progress
  import Fishing

  /** The index of the first band whose interval holds the depth, if any. */
  function LookupZone(bands: seq<ZoneBand>, depth: real): (r: Option<nat>)
    ensures r.Some? ==> r.value < |bands| && bands[r.value].Contains(depth)
    ensures r.Some? ==> forall j :: 0 <= j < r.value ==> !bands[j].Contains(depth)
    ensures r.None? ==> forall j :: 0 <= j < |bands| ==> !bands[j].Contains(depth)
  {
    if bands == [] then None
    else if bands[0].Contains(depth) then Some(0)
    else match LookupZone(bands[1..], depth)
      case None => None
      case Some(i) => Some(i + 1)
  }

  /**
   * The zone `spawn_fish` assigns to a depth: the table zone whose interval
   * holds it, or Surface when none does (fractional gaps, and every depth
   * above 500).
   */
  function CurrentZone(depth: real): (z: Zone)
    ensures forall i :: 0 <= i < |DepthZones| && DepthZones[i].Contains(depth) ==> z == DepthZones[i].zone
    ensures (forall i :: 0 <= i < |DepthZones| ==> !DepthZones[i].Contains(depth)) ==> z == Surface
  {
    match LookupZone(DepthZones, depth)
    case Some(i) =>
      assert forall j :: 0 <= j < |DepthZones| && DepthZones[j].Contains(depth) ==> j == i by {
        forall j | 0 <= j < |DepthZones| && DepthZones[j].Contains(depth) ensures j == i {
          if j < i { } else if j > i { ZonesDisjoint(depth, i, j); }
        }
      }
      DepthZones[i].zone
    case None => Surface
  }

  /** Beyond the table, and in the gap after a zone's maximum, spawning uses Surface. */
  lemma DepthsOutsideTableSpawnAtSurface(depth: real)
    requires depth > 500.0 || (100.0 < depth < 101.0)
    ensures CurrentZone(depth) == Surface
  {
  }

  /** The zone spawning starts from: the current zone, or the first unlocked one. */
  function SpawnZone(depth: real, unlocked: seq<Zone>): (z: Zone)
    requires unlocked != []
    ensures z in unlocked
    ensures CurrentZone(depth) in unlocked ==> z == CurrentZone(depth)
    ensures CurrentZone(depth) !in unlocked ==> z == unlocked[0]
  {
    var current := CurrentZone(depth);
    if current !in unlocked then unlocked[0] else current
  }

  /** The zones next to `z` in table order. */
  predicate Adjacent(a: Zone, b: Zone) {
    ZoneIndex(a) == ZoneIndex(b) + 1 || ZoneIndex(b) == ZoneIndex(a) + 1
  }

  /**
   * The zones a fish may be drawn from: the spawn zone first, then its
   * unlocked neighbour above and its unlocked neighbour below. A zone is a
   * candidate exactly when it is unlocked and is the spawn zone or next to
   * it, so the fall-back to all unlocked zones never applies.
   */
  function CandidateZones(depth: real, unlocked: seq<Zone>): (zs: seq<Zone>)
    requires unlocked != []
    ensures zs != [] && zs[0] == SpawnZone(depth, unlocked)
    ensures forall z :: z in zs <==> z in unlocked && (z == SpawnZone(depth, unlocked) || Adjacent(z, SpawnZone(depth, unlocked)))
    ensures NoDuplicates(zs)
  {
    var current := SpawnZone(depth, unlocked);
    var i := ZoneIndex(current);
    var here := if current in unlocked then [current] else [];
    var above := if i > 0 && ZoneOrder[i - 1] in unlocked then [ZoneOrder[i - 1]] else [];
    var below := if i < |ZoneOrder| - 1 && ZoneOrder[i + 1] in unlocked then [ZoneOrder[i + 1]] else [];
    var available := here + above + below;
    if available == [] then unlocked else available
  }

  /** The species native to a zone, in catalog order. */
  function NativeTo(species: seq<Species>, z: Zone): (r: seq<Species>)
    ensures forall s :: s in r <==> s in species && s.depthRange == z
  {
    if species == [] then []
    else if species[0].depthRange == z then [species[0]] + NativeTo(species[1..], z)
    else NativeTo(species[1..], z)
  }

  /**
   * The species a fish may be drawn from: those native to the chosen zone,
   * or the whole catalog when the hook is deeper than 500.
   */
  function SpeciesPool(z: Zone, depth: real): (pool: seq<Species>)
    ensures pool != []
    ensures depth > 500.0 ==> pool == Catalog
    ensures depth <= 500.0 ==> forall s :: s in pool <==> s in Catalog && s.depthRange == z
  {
    CatalogCoversEveryZone(z);
    if depth > 500.0 then Catalog else NativeTo(Catalog, z)
  }

  /**
   * The band of heights a new fish is placed in, for the zone at table
   * index `i`: [450, 650] shifted up by 12.5 per zone and truncated to
   * integers. Bands are 200 high and never more than 50 above the
   * surface band.
   */
  function SpawnBand(i: nat): (band: (int, int))
    requires i < |ZoneOrder|
    ensures band.0 == (900 - 25 * i) / 2 && band.1 == (1300 - 25 * i) / 2
    ensures 400 <= band.0 < band.1 <= 650 && band.1 - band.0 == 200
  {
    var spawnMinY := (ScreenHeight as real) * 0.75;
    var spawnMaxY := (ScreenHeight + 50) as real;
    var zoneOffset := ((i as real) / ((|ZoneOrder| - 1) as real)) * 50.0;
    var low := spawnMinY - zoneOffset;
    var high := spawnMaxY - zoneOffset;
    assert low == (900 - 25 * i) as real / 2.0;
    assert high == (1300 - 25 * i) as real / 2.0;
    HalfFloor(900 - 25 * i);
    HalfFloor(1300 - 25 * i);
    (low.Floor, high.Floor)
  }

  /** Truncating half an integer is integer division by two. */
  lemma HalfFloor(n: int)
    ensures ((n as real) / 2.0).Floor == n / 2
  {
    var q := n / 2;
    assert n == 2 * q || n == 2 * q + 1;
    assert (q as real) <= (n as real) / 2.0 < (q + 1) as real;
  }

  /** Deeper zones spawn strictly higher on the screen. */
  lemma DeeperZonesSpawnHigher(i: nat, j: nat)
    requires i < j < |ZoneOrder|
    ensures SpawnBand(j).0 < SpawnBand(i).0 && SpawnBand(j).1 < SpawnBand(i).1
  {
  }

  /**
   * Milliseconds between spawns: 1000 at the surface, falling linearly to
   * 500 at depth 500 and staying there below.
   */
  function SpawnInterval(depth: real): (ms: real)
    ensures depth >= 0.0 ==> 500.0 <= ms <= 1000.0
    ensures depth >= 500.0 <==> ms == 500.0
    ensures depth == 0.0 ==> ms == 1000.0
  {
    var baseSpawnInterval := 1000.0;
    var depthFactor := if depth / 500.0 < 1.0 then depth / 500.0 else 1.0;
    baseSpawnInterval * (1.0 - depthFactor * 0.5)
  }

  /** Going deeper never makes spawns less frequent. */
  lemma SpawnIntervalNonIncreasing(d1: real, d2: real)
    requires d1 <= d2
    ensures SpawnInterval(d2) <= SpawnInterval(d1)
  {
  }

  /** The random draws of one spawn, plus the size of the species' loaded sprite. */
  datatype SpawnInput = SpawnInput(zonePick: nat, speciesPick: nat, leftward: bool, yPick: nat, width: nat, height: nat)

  datatype SpawnPlan = SpawnPlan(zone: Zone, species: Species, low: int, high: int)

  /**
   * What `spawn_fish` decides before it builds the fish: nothing when no
   * zone is unlocked; otherwise a zone, a species and a band, as
   * `PlanSpawnChoices` states. `random.choice` is the pick modulo the list's
   * length.
   */
  function PlanSpawn(depth: real, unlocked: seq<Zone>, input: SpawnInput): (p: Option<SpawnPlan>)
    ensures p.None? <==> unlocked == []
  {
    if unlocked == [] then None
    else
      var available := CandidateZones(depth, unlocked);
      var zone := available[input.zonePick % |available|];
      var pool := SpeciesPool(zone, depth);
      var species := pool[input.speciesPick % |pool|];
      var band := SpawnBand(ZoneIndex(zone));
      Some(SpawnPlan(zone, species, band.0, band.1))
  }

  /**
   * A planned spawn takes a candidate zone, which is unlocked, a species of
   * that zone's pool and the zone's band.
   */
  lemma PlanSpawnChoices(depth: real, unlocked: seq<Zone>, input: SpawnInput)
    requires unlocked != []
    ensures var p := PlanSpawn(depth, unlocked, input).value;
            && p.zone in CandidateZones(depth, unlocked)
            && p.zone in unlocked
            && p.species in SpeciesPool(p.zone, depth)
            && (p.low, p.high) == SpawnBand(ZoneIndex(p.zone))
  {
  }

  /** The spawn one draw makes, paired with the draw: none when `PlanSpawn` plans none. */
  function SpawnOf(depth: real, unlocked: seq<Zone>, input: SpawnInput): seq<(SpawnPlan, SpawnInput)> {
    match PlanSpawn(depth, unlocked, input)
    case None => []
    case Some(p) => [(p, input)]
  }

  /**
   * The spawns of one tick of `update`: none unless the spawn is due; then
   * the first draw's, and the second draw's deeper than 200 when the extra
   * roll comes up.
   */
  function TickSpawns(depth: real, unlocked: seq<Zone>, due: bool, first: SpawnInput, extraRoll: bool, second: SpawnInput)
    : seq<(SpawnPlan, SpawnInput)>
  {
    if !due then []
    else SpawnOf(depth, unlocked, first) + (if depth > 200.0 && extraRoll then SpawnOf(depth, unlocked, second) else [])
  }

  /**
   * A due tick spawns one fish, or two deeper than 200 on the extra roll,
   * and none only when no zone is unlocked; each spawn is the plan of its
   * draw.
   */
  lemma TickSpawnCount(depth: real, unlocked: seq<Zone>, first: SpawnInput, extraRoll: bool, second: SpawnInput)
    ensures var ts := TickSpawns(depth, unlocked, true, first, extraRoll, second);
            && |ts| == (if unlocked == [] then 0 else if depth > 200.0 && extraRoll then 2 else 1)
            && (forall k :: 0 <= k < |ts| ==> PlanSpawn(depth, unlocked, ts[k].1) == Some(ts[k].0))
            && (|ts| > 0 ==> ts[0].1 == first)
            && (|ts| > 1 ==> ts[1].1 == second)
  {
  }

  /**
   * A fish built from a plan and its draw: the plan's species, the draw's
   * direction and size, and an entry rectangle at a height in the plan's
   * band and at the edge the fish swims away from.
   */
  predicate SpawnedAs(f: Fish, p: SpawnPlan, input: SpawnInput)
  {
    && f.species == p.species
    && f.direction == (if input.leftward then -1 else 1)
    && p.low <= f.origin.y <= p.high
    && f.origin.x == (if input.leftward then ScreenWidth + input.width else -(input.width as int))
    && f.origin.w == input.width && f.origin.h == input.height
  }

  /** The fish `born` are built one for one, in order, from `plans` and their draws. */
  predicate BornFrom(born: seq<Fish>, plans: seq<(SpawnPlan, SpawnInput)>)
  {
    |born| == |plans| && forall k :: 0 <= k < |born| ==> SpawnedAs(born[k], plans[k].0, plans[k].1)
  }

  /** Where the fish of `fs` are: the rectangle of each. */
  function Positions(fs: seq<Fish>): (at: map<Fish, Rect>)
    reads fs`rect
    ensures forall f :: f in fs ==> f in at && at[f] == f.rect
    ensures forall f :: f in at ==> f in fs
  {
    map f | f in fs :: f.rect
  }

  /**
   * Every fish of `fs` has moved by its drift from where it was (`was`) to
   * where it is (`at`), except the ones in `frozen` (caught), which have
   * stayed where they were.
   */
  predicate MovedFrom(fs: seq<Fish>, was: map<Fish, Rect>, at: map<Fish, Rect>, frozen: set<Fish>, drift: Fish -> Drift)
  {
    forall f :: f in fs ==>
      && f in was && f in at
      && at[f] == if f in frozen then was[f] else was[f].Moved(drift(f).dx, drift(f).dy)
  }

  /**
   * A motion of a list of fish is a motion of any of its fish that were in
   * the same places and equally caught.
   */
  lemma MovedFromSub(a: seq<Fish>, b: seq<Fish>, was: map<Fish, Rect>, wasA: map<Fish, Rect>, at: map<Fish, Rect>,
                     frozen: set<Fish>, frozenA: set<Fish>, drift: Fish -> Drift)
    requires MovedFrom(b, was, at, frozen, drift)
    requires forall f :: f in a ==> f in b && f in wasA && f in was && wasA[f] == was[f] && (f in frozenA <==> f in frozen)
    ensures MovedFrom(a, wasA, at, frozenA, drift)
  {
  }

  /** Fish built from two lists of plans are built from the lists together. */
  lemma BornFromAppend(a: seq<Fish>, b: seq<Fish>, p: seq<(SpawnPlan, SpawnInput)>, q: seq<(SpawnPlan, SpawnInput)>)
    requires BornFrom(a, p) && BornFrom(b, q)
    ensures BornFrom(a + b, p + q)
  {
    forall k | 0 <= k < |a + b|
      ensures SpawnedAs((a + b)[k], (p + q)[k].0, (p + q)[k].1)
    {
      if k >= |a| {
        assert (a + b)[k] == b[k - |a|] && (p + q)[k] == q[k - |a|];
      } else {
        assert (a + b)[k] == a[k] && (p + q)[k] == p[k];
      }
    }
  }

  /** Every candidate zone is drawn by some pick. */
  lemma EveryCandidateZoneReachable(depth: real, unlocked: seq<Zone>, z: Zone, input: SpawnInput)
    requires unlocked != [] && z in CandidateZones(depth, unlocked)
    ensures exists k :: 0 <= k < |CandidateZones(depth, unlocked)| && PlanSpawn(depth, unlocked, input.(zonePick := k)).value.zone == z
  {
    var zs := CandidateZones(depth, unlocked);
    var k :| 0 <= k < |zs| && zs[k] == z;
    var picked := input.(zonePick := k);
    SmallPickIsItself(k, |zs|);
    assert PlanSpawn(depth, unlocked, picked).value.zone == zs[k];
  }

  /** A pick below the list's length selects that very position. */
  lemma SmallPickIsItself(k: nat, n: nat)
    requires k < n
    ensures k % n == k
  {
  }

  /** Deeper than 500, every species of the catalog can be spawned. */
  lemma EverySpeciesReachableBelow500(depth: real, unlocked: seq<Zone>, s: Species, input: SpawnInput)
    requires depth > 500.0 && unlocked != [] && s in Catalog
    ensures exists k :: 0 <= k < |Catalog| && PlanSpawn(depth, unlocked, input.(speciesPick := k)).value.species == s
  {
    var k :| 0 <= k < |Catalog| && Catalog[k] == s;
    var picked := input.(speciesPick := k);
    assert picked.speciesPick % |Catalog| == k;
    var zs := CandidateZones(depth, unlocked);
    assert SpeciesPool(zs[picked.zonePick % |zs|], depth) == Catalog;
    assert PlanSpawn(depth, unlocked, picked).value.species == Catalog[k];
  }

  /**
   * The catch rule on squared distances between the fish's centre and the
   * hook's centre: within 30 always, within 80 when the pointer is on the
   * fish.
   */
  function CatchFires(fishRect: Rect, hook: Point, mouse: Point): (fires: bool)
    ensures var d2 := Dist2(fishRect.Center(), hook);
            && (d2 <= 900 ==> fires)
            && (d2 > 6400 ==> !fires)
            && (fires <==> d2 <= 900 || (fishRect.CollidePoint(mouse) && d2 <= 6400))
  {
    var d2 := Dist2(fishRect.Center(), hook);
    (fishRect.CollidePoint(mouse) && d2 <= 80 * 80) || d2 <= 30 * 30
  }

  /**
   * The squared distance between two points: zero exactly at the same
   * point, and at least the square of either axis's difference.
   */
  function Dist2(a: Point, b: Point): (d2: nat)
    ensures d2 == 0 <==> a == b
    ensures (a.x - b.x) * (a.x - b.x) <= d2 && (a.y - b.y) * (a.y - b.y) <= d2
  {
    var dx := a.x - b.x;
    var dy := a.y - b.y;
    dx * dx + dy * dy
  }

  /** The squared distance does not depend on which point comes first. */
  lemma Dist2Symmetric(a: Point, b: Point)
    ensures Dist2(a, b) == Dist2(b, a)
  {
  }

  /**
   * The source compares the square root of the squared distance with a
   * radius; comparing the squared distance with the squared radius decides
   * the same.
   */
  lemma SquaredDistanceTest(d: real, d2: nat, r: nat)
    requires d >= 0.0 && d * d == d2 as real
    ensures d <= r as real <==> d2 <= r * r
  {
    var rr := r as real;
    IntSquareAsReal(r);
    if d <= rr {
      SquareBelow(d, rr, d * d, d * rr, rr * rr, false);
    } else {
      SquareBelow(rr, d, rr * rr, rr * d, d * d, true);
    }
  }

  lemma IntSquareAsReal(r: nat)
    ensures (r * r) as real == (r as real) * (r as real)
  {
  }

  /** Squaring keeps the order of non-negative reals, strictly when `strict`; the products are passed in. */
  lemma SquareBelow(a: real, b: real, aa: real, ab: real, bb: real, strict: bool)
    requires aa == a * a && ab == a * b && bb == b * b
    requires 0.0 <= a <= b && (strict ==> a < b)
    ensures aa <= bb && (strict ==> aa < bb)
  {
    ScaleBelow(a, b, a, aa, ab, false);
    ScaleBelow(a, b, b, ab, bb, strict);
  }

  /** Multiplying by a non-negative factor keeps the order. */
  lemma ScaleBelow(a: real, b: real, c: real, ac: real, bc: real, strict: bool)
    requires ac == a * c && bc == b * c
    requires a <= b && 0.0 <= c && (strict ==> a < b && 0.0 < c)
    ensures ac <= bc && (strict ==> ac < bc)
  {
  }

  /** A fish 25 from the hook is caught wherever the pointer is; one 100 away never is. */
  lemma CatchDistanceExamples(fishRect: Rect, hook: Point, mouse: Point)
    ensures fishRect.Center() == Point(hook.x + 15, hook.y + 20) ==> CatchFires(fishRect, hook, mouse)
    ensures fishRect.Center() == Point(hook.x + 60, hook.y + 80) ==> !CatchFires(fishRect, hook, mouse)
  {
  }

  /** A fish whose drift brings its centre onto the hook is caught, wherever the pointer is. */
  lemma DriftOntoHookCatches(fishRect: Rect, hook: Point, mouse: Point)
    ensures var c := fishRect.Center();
            CatchFires(fishRect.Moved(hook.x - c.x, hook.y - c.y), hook, mouse)
  {
  }

  /** The fish of `fs` that are marked caught. */
  function CaughtIn(fs: seq<Fish>): (c: set<Fish>)
    reads fs`caught
    ensures forall f :: f in c ==> f in fs && f.caught
    ensures forall i :: 0 <= i < |fs| ==> (fs[i] in c <==> fs[i].caught)
  {
    set f | f in fs && f.caught
  }

  /**
   * Which fish of `fs` the catch rule selects when the fish in `frozen` are
   * the ones already caught and the fish are where `at` says: not frozen
   * and firing.
   */
  function Selected(fs: seq<Fish>, at: map<Fish, Rect>, frozen: set<Fish>, hook: Point, mouse: Point): (e: seq<bool>)
    ensures |e| == |fs|
    ensures forall i :: 0 <= i < |fs| ==> e[i] == (fs[i] !in frozen && fs[i] in at && CatchFires(at[fs[i]], hook, mouse))
  {
    seq(|fs|, i requires 0 <= i < |fs| => fs[i] !in frozen && fs[i] in at && CatchFires(at[fs[i]], hook, mouse))
  }

  /** Which fish of `fs` the catch rule selects: uncaught and firing. */
  function Eligibility(fs: seq<Fish>, hook: Point, mouse: Point): (e: seq<bool>)
    reads fs
    ensures |e| == |fs|
    ensures forall i :: 0 <= i < |fs| ==> e[i] == (!fs[i].caught && CatchFires(fs[i].rect, hook, mouse))
  {
    seq(|fs|, i requires 0 <= i < |fs| reads fs => !fs[i].caught && CatchFires(fs[i].rect, hook, mouse))
  }

  /**
   * The fish the hook accepts during one scan, in scan order: an eligible
   * fish is accepted while the hook (already holding `held`) has room and
   * does not hold it yet.
   */
  function Accepted(fs: seq<Fish>, eligible: seq<bool>, held: seq<Fish>, capacity: int): (acc: seq<Fish>)
    requires |eligible| == |fs|
    ensures |held| <= capacity ==> |held| + |acc| <= capacity
    ensures |held| >= capacity ==> acc == []
  {
    if fs == [] then []
    else
      var n := |fs| - 1;
      var prev := Accepted(fs[..n], eligible[..n], held, capacity);
      if eligible[n] && |held| + |prev| < capacity && fs[n] !in held + prev then prev + [fs[n]]
      else prev
  }

  /** Every accepted fish is one of the scanned fish that the catch rule selected. */
  lemma {:induction false} AcceptedAreEligible(fs: seq<Fish>, eligible: seq<bool>, held: seq<Fish>, capacity: int)
    requires |eligible| == |fs|
    ensures forall k :: 0 <= k < |Accepted(fs, eligible, held, capacity)| ==>
              exists i :: 0 <= i < |fs| && Accepted(fs, eligible, held, capacity)[k] == fs[i] && eligible[i]
  {
    if fs != [] {
      var n := |fs| - 1;
      AcceptedAreEligible(fs[..n], eligible[..n], held, capacity);
      var prev := Accepted(fs[..n], eligible[..n], held, capacity);
      var acc := Accepted(fs, eligible, held, capacity);
      forall k | 0 <= k < |acc| ensures exists i :: 0 <= i < |fs| && acc[k] == fs[i] && eligible[i] {
        if k < |prev| {
          assert exists i :: 0 <= i < |fs[..n]| && prev[k] == fs[..n][i] && eligible[..n][i];
          var i :| 0 <= i < n && prev[k] == fs[..n][i] && eligible[..n][i];
          assert acc[k] == fs[i] && eligible[i];
        } else {
          assert acc[k] == fs[n] && eligible[n];
        }
      }
    } else {
      assert Accepted(fs, eligible, held, capacity) == [];
    }
  }

  /** The hook never holds a fish twice: accepted fish are new to it and to each other. */
  lemma {:induction false} AcceptedKeepsHookDistinct(fs: seq<Fish>, eligible: seq<bool>, held: seq<Fish>, capacity: int)
    requires |eligible| == |fs| && NoDuplicates(held)
    ensures NoDuplicates(held + Accepted(fs, eligible, held, capacity))
  {
    if fs != [] {
      var n := |fs| - 1;
      AcceptedKeepsHookDistinct(fs[..n], eligible[..n], held, capacity);
      var prev := Accepted(fs[..n], eligible[..n], held, capacity);
      if eligible[n] && |held| + |prev| < capacity && fs[n] !in held + prev {
        AppendFresh(held + prev, fs[n]);
        assert held + (prev + [fs[n]]) == (held + prev) + [fs[n]];
      }
    } else {
      assert held + [] == held;
    }
  }

  /**
   * The outcome of one catch scan over `live`, placed as `at` says, in
   * which the fish in `frozen` were already caught: the hook (which held `heldBefore`) and the round
   * (which held `roundBefore`) both gain exactly the accepted fish, which
   * leave the live list; every selected fish ends up marked caught, even one
   * the hook refused; the result says whether any fish was accepted.
   */
  predicate ScanOutcome(live: seq<Fish>, at: map<Fish, Rect>, frozen: set<Fish>, hook: Point, mouse: Point, capacity: int,
                        heldBefore: seq<Fish>, heldAfter: seq<Fish>, roundBefore: seq<Fish>, roundAfter: seq<Fish>,
                        liveAfter: seq<Fish>, caughtAny: bool)
    reads live`caught
  {
    var e := Selected(live, at, frozen, hook, mouse);
    var acc := Accepted(live, e, heldBefore, capacity);
    && heldAfter == heldBefore + acc
    && roundAfter == roundBefore + acc
    && liveAfter == Without(live, acc)
    && caughtAny == (acc != [])
    && (forall i :: 0 <= i < |live| ==> live[i].caught == (live[i] in frozen || e[i]))
  }

  /** Scanning one more fish extends the accepted list by that fish or by nothing. */
  lemma AcceptedStep(fs: seq<Fish>, eligible: seq<bool>, held: seq<Fish>, capacity: int, i: nat)
    requires |eligible| == |fs| && i < |fs|
    ensures var prev := Accepted(fs[..i], eligible[..i], held, capacity);
            Accepted(fs[..i + 1], eligible[..i + 1], held, capacity)
              == if eligible[i] && |held| + |prev| < capacity && fs[i] !in held + prev then prev + [fs[i]] else prev
  {
    assert fs[..i + 1][..i] == fs[..i];
    assert eligible[..i + 1][..i] == eligible[..i];
  }

  /** With room for every eligible fish, the hook takes all of them. */
  lemma {:induction false} AmpleRoomAcceptsAllEligible(fs: seq<Fish>, eligible: seq<bool>, held: seq<Fish>, capacity: int)
    requires |eligible| == |fs| && NoDuplicates(fs)
    requires |held| + |fs| <= capacity
    requires forall i :: 0 <= i < |fs| ==> fs[i] !in held
    ensures forall i :: 0 <= i < |fs| && eligible[i] ==> fs[i] in Accepted(fs, eligible, held, capacity)
  {
    if fs != [] {
      var n := |fs| - 1;
      AmpleRoomAcceptsAllEligible(fs[..n], eligible[..n], held, capacity);
      var prev := Accepted(fs[..n], eligible[..n], held, capacity);
      AcceptedAreEligible(fs[..n], eligible[..n], held, capacity);
      forall k | 0 <= k < |prev| ensures prev[k] != fs[n] {
        var i :| 0 <= i < n && prev[k] == fs[..n][i];
      }
      assert |prev| <= n by { AcceptedLength(fs[..n], eligible[..n], held, capacity); }
      var acc := Accepted(fs, eligible, held, capacity);
      assert fs[n] !in held + prev;
      assert forall x :: x in prev ==> x in acc;
      forall i | 0 <= i < |fs| && eligible[i] ensures fs[i] in acc {
        if i < n {
          assert fs[..n][i] == fs[i] && eligible[..n][i];
        }
      }
    }
  }

  lemma {:induction false} AcceptedLength(fs: seq<Fish>, eligible: seq<bool>, held: seq<Fish>, capacity: int)
    requires |eligible| == |fs|
    ensures |Accepted(fs, eligible, held, capacity)| <= |fs|
  {
    if fs != [] {
      AcceptedLength(fs[..|fs| - 1], eligible[..|fs| - 1], held, capacity);
    }
  }

  /**
   * A fish just built from a spawn plan is off the screen only by lying
   * below it: it starts at the edge it swims away from, never past the far
   * one.
   */
  lemma NewFishOffScreenOnlyBelow(f: Fish, p: SpawnPlan, input: SpawnInput)
    requires SpawnedAs(f, p, input) && f.rect == f.origin
    ensures f.OffScreen() <==> f.rect.y > ScreenHeight
  {
  }

  /**
   * Where a fish swimming in `direction` is removed: off the screen, or
   * more than 100 above or below it.
   */
  predicate StrayAt(direction: int, r: Rect)
  {
    OffScreenAt(direction, r) || r.y < -100 || r.y > ScreenHeight + 100
  }

  /** A fish that is stray where it is now. */
  predicate Stray(f: Fish)
    reads f`rect
  {
    StrayAt(f.direction, f.rect)
  }

  /** A fish that is stray where `at` places it. */
  predicate StrayIn(f: Fish, at: map<Fish, Rect>)
  {
    f in at && StrayAt(f.direction, at[f])
  }

  /** The cull rule: an uncaught stray fish. */
  predicate Culled(f: Fish)
    reads f
  {
    !f.caught && Stray(f)
  }

  /**
   * The fish of `fs` a cull keeps, in order, when the fish in `frozen` are
   * the caught ones and the fish are where `at` says: every fish but the
   * uncaught strays.
   */
  function Kept(fs: seq<Fish>, at: map<Fish, Rect>, frozen: set<Fish>): (r: seq<Fish>)
    ensures forall k :: 0 <= k < |r| ==> r[k] in fs && (r[k] in frozen || !StrayIn(r[k], at))
    ensures forall i :: 0 <= i < |fs| && (fs[i] in frozen || !StrayIn(fs[i], at)) ==> fs[i] in r
    ensures NoDuplicates(fs) ==> NoDuplicates(r)
  {
    if fs == [] then []
    else
      var n := |fs| - 1;
      var prev := Kept(fs[..n], at, frozen);
      if fs[n] !in frozen && StrayIn(fs[n], at) then prev else prev + [fs[n]]
  }

  /** Keeping one more fish of the scan: `Kept` grows by that fish unless it is an unfrozen stray. */
  lemma KeptStep(fs: seq<Fish>, i: nat, at: map<Fish, Rect>, frozen: set<Fish>)
    requires i < |fs|
    ensures Kept(fs[..i + 1], at, frozen)
              == Kept(fs[..i], at, frozen) + (if fs[i] !in frozen && StrayIn(fs[i], at) then [] else [fs[i]])
  {
    assert fs[..i + 1][..i] == fs[..i];
  }

  /** The fish that survive culling, in order. */
  function Survivors(fs: seq<Fish>): (r: seq<Fish>)
    reads fs
    ensures forall k :: 0 <= k < |r| ==> r[k] in fs && !Culled(r[k])
    ensures forall i :: 0 <= i < |fs| && !Culled(fs[i]) ==> fs[i] in r
    ensures NoDuplicates(fs) ==> NoDuplicates(r)
  {
    Kept(fs, Positions(fs), CaughtIn(fs))
  }

  /**
   * A new fish placed below the screen does not survive its own tick: the
   * off-screen test removes it before it can rise into view. The surface
   * band reaches 50 below the screen, so this happens there.
   */
  lemma SpawnedBelowScreenCulled(before: seq<Fish>, born: seq<Fish>)
    requires forall f :: f in born ==> !f.caught
    ensures SpawnBand(0).1 > ScreenHeight
    ensures forall f :: f in born && f.rect.y > ScreenHeight ==> f !in Survivors(before + born)
  {
  }

  /**
   * Across a fish tick the caught fish are exactly the caught fish before
   * it: the new fish are uncaught and a caught fish is never culled.
   */
  lemma CaughtSurviveTick(before: seq<Fish>, born: seq<Fish>, live: seq<Fish>)
    requires forall f :: f in born ==> !f.caught
    requires live == Survivors(before + born)
    ensures CaughtIn(before + born) == CaughtIn(before)
    ensures CaughtIn(live) == CaughtIn(before)
    ensures live == Kept(before + born, Positions(before + born), CaughtIn(before))
  {
    var all := before + born;
    assert CaughtIn(all) == CaughtIn(before) by {
      forall f | f in CaughtIn(all)
        ensures f in CaughtIn(before)
      {
        assert f in before || f in born;
      }
      forall f | f in CaughtIn(before)
        ensures f in CaughtIn(all)
      {
        var i :| 0 <= i < |before| && before[i] == f;
        assert all[i] == f;
      }
    }
    forall f | f in CaughtIn(before)
      ensures f in live
    {
      var i :| 0 <= i < |before| && before[i] == f;
      assert all[i] == f && !Culled(all[i]);
    }
  }

  class FishManager {
    const economy: Progress.GameState
    var allFish: seq<Fish>
    var caughtFish: seq<Fish>
    var lastSpawnTime: int
    var spawnInterval: real
    var previousDepth: real
    var cameraOffsetY: real

    predicate Valid()
      reads this
    {
      NoDuplicates(allFish)
    }

    constructor (economy: Progress.GameState)
      ensures Valid() && this.economy == economy
      ensures allFish == [] && caughtFish == []
      ensures lastSpawnTime == 0 && spawnInterval == 1000.0 && previousDepth == 0.0 && cameraOffsetY == 0.0
    {
      this.economy := economy;
      allFish := [];
      caughtFish := [];
      lastSpawnTime := 0;
      spawnInterval := 1000.0;
      previousDepth := 0.0;
      cameraOffsetY := 0.0;
    }

    /** `spawn_fish`: appends one new fish built from `PlanSpawn`, or nothing. */
    method SpawnFish(depth: real, input: SpawnInput) returns (ghost born: seq<Fish>)
      requires Valid()
      modifies this`allFish
      ensures Valid()
      ensures allFish == old(allFish) + born
      ensures BornFrom(born, SpawnOf(depth, economy.unlockedZones, input))
      ensures forall f :: f in born ==> fresh(f) && !f.caught && f.rect == f.origin
    {
      var unlockedZones := economy.unlockedZones;
      var plan := PlanSpawn(depth, unlockedZones, input);
      born := [];
      if plan.None? {
        return;
      }
      var p := plan.value;
      var newFish := new Fish(p.species, p.low, p.high, input.leftward, input.yPick, input.width, input.height);
      AppendFresh(allFish, newFish);
      allFish := allFish + [newFish];
      born := [newFish];
      assert SpawnedAs(newFish, p, input);
      assert SpawnOf(depth, unlockedZones, input) == [(p, input)];
    }

    /**
     * The fish motion of `update`: every uncaught fish moves by its drift,
     * which stands for the camera shift, its own swim and the random
     * jitter of this tick; caught fish stay where they are.
     */
    method MoveFish(drift: Fish -> Drift)
      requires Valid()
      modifies allFish`rect
      ensures MovedFrom(allFish, old(Positions(allFish)), Positions(allFish), CaughtIn(allFish), drift)
    {
      ghost var was := Positions(allFish);
      var fs := allFish;
      var i := 0;
      while i < |fs|
        invariant 0 <= i <= |fs|
        invariant forall j :: 0 <= j < |fs| ==>
                    fs[j].rect == if j < i && !fs[j].caught then was[fs[j]].Moved(drift(fs[j]).dx, drift(fs[j]).dy)
                                  else was[fs[j]]
      {
        fs[i].Swim(drift(fs[i]));
        i := i + 1;
      }
    }

    /** Removes every culled fish; caught fish are never culled. */
    method Cull()
      requires Valid()
      modifies this`allFish
      ensures Valid()
      ensures allFish == Survivors(old(allFish))
    {
      var fs := allFish;
      ghost var at, frozen := Positions(fs), CaughtIn(fs);
      var kept: seq<Fish> := [];
      var i := 0;
      while i < |fs|
        invariant 0 <= i <= |fs|
        invariant kept == Kept(fs[..i], at, frozen)
      {
        KeptStep(fs, i, at, frozen);
        assert (fs[i] in frozen <==> fs[i].caught) && fs[i] in at && at[fs[i]] == fs[i].rect;
        if !Culled(fs[i]) {
          kept := kept + [fs[i]];
        }
        i := i + 1;
      }
      assert fs[..|fs|] == fs && Positions(fs) == at && CaughtIn(fs) == frozen;
      allFish := kept;
    }

    /**
     * One tick of `FishManager.update`: track the depth change, set the
     * spawn interval for the depth, spawn when the interval has passed (a
     * second fish deeper than 200 when the extra roll comes up), move every
     * uncaught fish by its `drift`, then cull. `born` are the fish spawned.
     */
    method Update(currentDepth: real, now: int, first: SpawnInput, extraRoll: bool, second: SpawnInput,
                  drift: Fish -> Drift)
      returns (ghost born: seq<Fish>)
      requires Valid()
      modifies this`previousDepth, this`cameraOffsetY, this`spawnInterval, this`allFish, this`lastSpawnTime, allFish`rect
      ensures Valid()
      ensures previousDepth == currentDepth
      ensures cameraOffsetY == old(cameraOffsetY) + (currentDepth - old(previousDepth))
      ensures spawnInterval == SpawnInterval(currentDepth)
      ensures var due := (now - old(lastSpawnTime)) as real > SpawnInterval(currentDepth);
              && lastSpawnTime == (if due then now else old(lastSpawnTime))
              && BornFrom(born, TickSpawns(currentDepth, economy.unlockedZones, due, first, extraRoll, second))
      ensures forall f :: f in born ==> fresh(f) && !f.caught && f.rect == f.origin.Moved(drift(f).dx, drift(f).dy)
      ensures MovedFrom(old(allFish), old(Positions(allFish)), Positions(old(allFish) + born), old(CaughtIn(allFish)), drift)
      ensures allFish == Survivors(old(allFish) + born)
      ensures caughtFish == old(caughtFish)
    {
      TrackDepth(currentDepth);
      assert Positions(allFish) == old(Positions(allFish)) && CaughtIn(allFish) == old(CaughtIn(allFish));
      born := SpawnMoveCull(currentDepth, now, first, extraRoll, second, drift);
    }

    /** The fish part of `update`: spawn when due, move the old fish and the new ones, then cull. */
    method SpawnMoveCull(currentDepth: real, now: int, first: SpawnInput, extraRoll: bool, second: SpawnInput,
                         drift: Fish -> Drift)
      returns (ghost born: seq<Fish>)
      requires Valid() && spawnInterval == SpawnInterval(currentDepth)
      modifies this`allFish, this`lastSpawnTime, allFish`rect
      ensures Valid()
      ensures var due := (now - old(lastSpawnTime)) as real > SpawnInterval(currentDepth);
              && lastSpawnTime == (if due then now else old(lastSpawnTime))
              && BornFrom(born, TickSpawns(currentDepth, economy.unlockedZones, due, first, extraRoll, second))
      ensures forall f :: f in born ==> fresh(f) && !f.caught && f.rect == f.origin.Moved(drift(f).dx, drift(f).dy)
      ensures MovedFrom(old(allFish), old(Positions(allFish)), Positions(old(allFish) + born), old(CaughtIn(allFish)), drift)
      ensures allFish == Survivors(old(allFish) + born)
    {
      born := SpawnAndMove(currentDepth, now, first, extraRoll, second, drift);
      Cull();
    }

    /** Spawn when due, then move the old fish and the new ones. */
    method SpawnAndMove(currentDepth: real, now: int, first: SpawnInput, extraRoll: bool, second: SpawnInput,
                        drift: Fish -> Drift)
      returns (ghost born: seq<Fish>)
      requires Valid() && spawnInterval == SpawnInterval(currentDepth)
      modifies this`allFish, this`lastSpawnTime, allFish`rect
      ensures Valid()
      ensures var due := (now - old(lastSpawnTime)) as real > SpawnInterval(currentDepth);
              && lastSpawnTime == (if due then now else old(lastSpawnTime))
              && BornFrom(born, TickSpawns(currentDepth, economy.unlockedZones, due, first, extraRoll, second))
      ensures forall f :: f in born ==> fresh(f) && !f.caught && f.rect == f.origin.Moved(drift(f).dx, drift(f).dy)
      ensures MovedFrom(old(allFish), old(Positions(allFish)), Positions(old(allFish) + born), old(CaughtIn(allFish)), drift)
      ensures allFish == old(allFish) + born
    {
      ghost var before, wasBefore, frozenBefore := allFish, Positions(allFish), CaughtIn(allFish);
      born := SpawnIfDue(currentDepth, now, first, extraRoll, second);
      ghost var spawned, was, frozen := allFish, Positions(allFish), CaughtIn(allFish);
      assert spawned == before + born;
      forall f | f in before
        ensures was[f] == wasBefore[f] && (f in frozen <==> f in frozenBefore)
      {
      }
      forall f | f in born
        ensures was[f] == f.origin && f !in frozen
      {
      }
      MoveFish(drift);
      assert CaughtIn(spawned) == frozen;
      MovedFromSub(before, spawned, was, wasBefore, Positions(spawned), frozen, frozenBefore, drift);
    }

    /**
     * The depth tracking of `update`: the camera follows the change in
     * depth, and the spawn interval is set for the new depth.
     */
    method TrackDepth(currentDepth: real)
      modifies this`previousDepth, this`cameraOffsetY, this`spawnInterval
      ensures previousDepth == currentDepth
      ensures cameraOffsetY == old(cameraOffsetY) + (currentDepth - old(previousDepth))
      ensures spawnInterval == SpawnInterval(currentDepth)
    {
      var depthChange := currentDepth - previousDepth;
      previousDepth := currentDepth;
      if depthChange != 0.0 {
        cameraOffsetY := cameraOffsetY + depthChange;
      }
      spawnInterval := SpawnInterval(currentDepth);
    }

    /** The spawn timer of `update`: when the interval has passed, restart it and spawn. */
    method SpawnIfDue(currentDepth: real, now: int, first: SpawnInput, extraRoll: bool, second: SpawnInput)
      returns (ghost born: seq<Fish>)
      requires Valid() && spawnInterval == SpawnInterval(currentDepth)
      modifies this`allFish, this`lastSpawnTime
      ensures Valid()
      ensures var due := (now - old(lastSpawnTime)) as real > SpawnInterval(currentDepth);
              && lastSpawnTime == (if due then now else old(lastSpawnTime))
              && BornFrom(born, TickSpawns(currentDepth, economy.unlockedZones, due, first, extraRoll, second))
      ensures forall f :: f in born ==> fresh(f) && !f.caught && f.rect == f.origin
      ensures allFish == old(allFish) + born
    {
      born := [];
      if (now - lastSpawnTime) as real > spawnInterval {
        lastSpawnTime := now;
        born := SpawnRound(currentDepth, first, extraRoll, second);
      } else {
        assert allFish + born == allFish;
      }
    }

    /**
     * The spawning part of `update`: one fish, and a second one deeper than
     * 200 on the extra roll. `born` are the new fish, appended in order.
     */
    method SpawnRound(currentDepth: real, first: SpawnInput, extraRoll: bool, second: SpawnInput)
      returns (ghost born: seq<Fish>)
      requires Valid()
      modifies this`allFish
      ensures Valid()
      ensures allFish == old(allFish) + born
      ensures BornFrom(born, TickSpawns(currentDepth, economy.unlockedZones, true, first, extraRoll, second))
      ensures forall f :: f in born ==> fresh(f) && !f.caught && f.rect == f.origin
    {
      if currentDepth > 200.0 && extraRoll {
        born := SpawnTwo(currentDepth, first, second);
      } else {
        born := SpawnFish(currentDepth, first);
      }
    }

    /** Two spawns in a row: the fish of the first draw, then those of the second. */
    method SpawnTwo(depth: real, first: SpawnInput, second: SpawnInput) returns (ghost born: seq<Fish>)
      requires Valid()
      modifies this`allFish
      ensures Valid()
      ensures allFish == old(allFish) + born
      ensures BornFrom(born, SpawnOf(depth, economy.unlockedZones, first) + SpawnOf(depth, economy.unlockedZones, second))
      ensures forall f :: f in born ==> fresh(f) && !f.caught && f.rect == f.origin
    {
      born := SpawnFish(depth, first);
      ghost var more := SpawnFish(depth, second);
      BornFromAppend(born, more, SpawnOf(depth, economy.unlockedZones, first), SpawnOf(depth, economy.unlockedZones, second));
      born := born + more;
    }

    /**
     * `check_catches`: every uncaught fish the catch rule selects is marked
     * caught; those the hook accepts move from `allFish` to the manager's
     * and the hook's caught lists; the others stay in `allFish`, marked
     * caught. Reports whether any fish was accepted.
     */
    method CheckCatches(mouse: Point, line: Fishing.FishingLine, ghost at: map<Fish, Rect>) returns (caughtAny: bool)
      requires Valid() && line.Valid()
      requires forall f :: f in allFish ==> f in at && at[f] == f.rect
      modifies this`allFish, this`caughtFish, line`caughtFish, allFish`caught
      ensures Valid() && line.Valid()
      ensures line.hookRect == old(line.hookRect) && line.GetHookCapacity() == old(line.GetHookCapacity())
      ensures ScanOutcome(old(allFish), at, old(CaughtIn(allFish)), line.hookRect.Center(), mouse, line.GetHookCapacity(),
                          old(line.caughtFish), line.caughtFish, old(caughtFish), caughtFish, allFish, caughtAny)
      ensures forall f :: f in old(allFish) && f !in allFish ==> f in caughtFish
    {
      var snapshot := allFish;
      ghost var frozen := CaughtIn(snapshot);
      var hookCenter := line.hookRect.Center();
      ghost var e := Selected(snapshot, at, frozen, hookCenter, mouse);
      assert e == Eligibility(snapshot, hookCenter, mouse);
      var accepted := ScanForCatches(snapshot, hookCenter, mouse, line);
      caughtFish := caughtFish + accepted;
      allFish := Without(snapshot, accepted);
      caughtAny := accepted != [];
      forall f | f in snapshot && f !in allFish
        ensures f in caughtFish
      {
        WithoutMembers(snapshot, accepted, f);
      }
    }

    /**
     * The scan of `check_catches` over the fish present when it starts:
     * marks each selected fish caught and offers it to the hook; returns the
     * fish the hook accepted, in scan order.
     */
    static method ScanForCatches(snapshot: seq<Fish>, hookCenter: Point, mouse: Point, line: Fishing.FishingLine)
      returns (accepted: seq<Fish>)
      requires line.Valid() && NoDuplicates(snapshot)
      modifies snapshot`caught, line`caughtFish
      ensures line.Valid() && line.GetHookCapacity() == old(line.GetHookCapacity())
      ensures var e := old(Eligibility(snapshot, hookCenter, mouse));
              && accepted == Accepted(snapshot, e, old(line.caughtFish), line.GetHookCapacity())
              && line.caughtFish == old(line.caughtFish) + accepted
              && (forall i :: 0 <= i < |snapshot| ==> snapshot[i].caught == (old(snapshot[i].caught) || e[i]))
    {
      ghost var held := line.caughtFish;
      ghost var e := Eligibility(snapshot, hookCenter, mouse);
      var capacity := line.GetHookCapacity();
      accepted := [];
      var i := 0;
      while i < |snapshot|
        invariant 0 <= i <= |snapshot|
        invariant accepted == Accepted(snapshot[..i], e[..i], held, capacity)
        invariant line.Valid() && line.GetHookCapacity() == capacity
        invariant line.caughtFish == held + accepted
        invariant forall j :: 0 <= j < |snapshot| ==> snapshot[j].caught == (old(snapshot[j].caught) || (j < i && e[j]))
      {
        accepted := ScanStep(snapshot, i, snapshot[i], hookCenter, mouse, line, e, held, capacity, accepted);
        i := i + 1;
      }
      assert snapshot[..|snapshot|] == snapshot;
      assert e[..|snapshot|] == e;
    }

    /**
     * Fish `i` of the scan is offered to the hook: the accepted list grows
     * by that fish or by nothing, as `Accepted` says.
     */
    static method ScanStep(snapshot: seq<Fish>, i: nat, fish: Fish, hookCenter: Point, mouse: Point, line: Fishing.FishingLine,
                           ghost e: seq<bool>, ghost held: seq<Fish>, capacity: int, accepted: seq<Fish>)
      returns (accepted': seq<Fish>)
      requires i < |snapshot| == |e| && fish == snapshot[i] && NoDuplicates(snapshot)
      requires e[i] == (!fish.caught && CatchFires(fish.rect, hookCenter, mouse))
      requires line.Valid() && line.GetHookCapacity() == capacity
      requires accepted == Accepted(snapshot[..i], e[..i], held, capacity)
      requires line.caughtFish == held + accepted
      modifies fish`caught, line`caughtFish
      ensures line.Valid() && line.GetHookCapacity() == capacity
      ensures accepted' == Accepted(snapshot[..i + 1], e[..i + 1], held, capacity)
      ensures line.caughtFish == held + accepted'
      ensures forall j :: 0 <= j < |snapshot| ==> snapshot[j].caught == (old(snapshot[j].caught) || (j == i && e[i]))
    {
      AcceptedStep(snapshot, e, held, capacity, i);
      var added := TryCatch(fish, hookCenter, mouse, line);
      assert added == (e[i] && |held| + |accepted| < capacity && fish !in held + accepted);
      accepted' := accepted;
      if added {
        assert line.caughtFish == held + (accepted + [fish]);
        accepted' := accepted + [fish];
      }
    }

    /**
     * One fish of the scan in `check_catches`: an uncaught fish the catch
     * rule selects is marked caught and offered to the hook.
     */
    static method TryCatch(fish: Fish, hookCenter: Point, mouse: Point, line: Fishing.FishingLine) returns (added: bool)
      requires line.Valid()
      modifies fish`caught, line`caughtFish
      ensures line.Valid() && line.GetHookCapacity() == old(line.GetHookCapacity())
      ensures fish.caught == (old(fish.caught) || CatchFires(fish.rect, hookCenter, mouse))
      ensures added <==> && !old(fish.caught) && CatchFires(fish.rect, hookCenter, mouse)
                         && |old(line.caughtFish)| < line.GetHookCapacity() && fish !in old(line.caughtFish)
      ensures line.caughtFish == if added then old(line.caughtFish) + [fish] else old(line.caughtFish)
    {
      added := false;
      if !fish.caught && CatchFires(fish.rect, hookCenter, mouse) {
        var first := fish.Catch();
        if first {
          added := line.AddCaughtFish(fish);
        }
      }
    }

    /** `reset_round`: no live and no caught fish. */
    method ResetRound()
      modifies this`allFish, this`caughtFish
      ensures Valid() && allFish == [] && caughtFish == []
    {
      allFish := [];
      caughtFish := [];
    }

    /** `calculate_round_value`: the sum of the caught fish's values. */
    function CalculateRoundValue(): (v: int)
      reads this
      ensures v == TotalValue(caughtFish) && v >= 0
    {
      TotalValue(caughtFish)
    }
  }

  /**
   * The zone and blend `draw_background` uses: the zone holding the depth
   * (Surface when none does), the next zone with a blend factor when within
   * 20 of the zone's maximum, and Abyss for every depth above 500.
   */
  function BackgroundZone(depth: real): (r: (Zone, Option<Zone>, real))
    ensures 0.0 <= r.2 <= 1.0
    ensures r.1.None? <==> r.2 == 0.0
    ensures depth > 500.0 ==> r == (Abyss, None, 0.0)
    ensures depth <= 500.0 ==> r.0 == CurrentZone(depth)
    ensures r.1.Some? ==> ZoneIndex(r.1.value) == ZoneIndex(r.0) + 1
                          && r.2 == (depth - (DepthZones[ZoneIndex(r.0)].maxDepth - 20) as real) / 20.0
  {
    if depth > 500.0 then (Abyss, None, 0.0)
    else match LookupZone(DepthZones, depth)
      case None => (Surface, None, 0.0)
      case Some(i) =>
        var band := DepthZones[i];
        var transitionDistance := 20;
        if i < |ZoneOrder| - 1 && depth > (band.maxDepth - transitionDistance) as real then
          var progress := (depth - (band.maxDepth - transitionDistance) as real) / (transitionDistance as real);
          var clamped := if progress > 1.0 then 1.0 else if progress < 0.0 then 0.0 else progress;
          (band.zone, Some(DepthZones[i + 1].zone), clamped)
        else (band.zone, None, 0.0)
  }

  /** Above 500 the background shows Abyss while spawning treats the depth as Surface. */
  lemma DeepBackgroundAndSpawnZoneDiffer(depth: real)
    requires depth > 500.0
    ensures BackgroundZone(depth).0 == Abyss && CurrentZone(depth) == Surface
  {
  }
}
