/**
 * The screens' interactive parts: the button layout, hover tracking in the
 * shop, which upgrade a click buys, the shop's price labels and the
 * remaining-time figure of the in-game display.
 */
module UserInterface {
  import opened Shared
  import opened Config
  import Progress

  const ContinueId := "continue"
  const StartId := "start"
  const ResetId := "reset"

  /** A centred button `fromBottom` pixels above the bottom edge of the screen. */
  function CentredButton(fromBottom: int): Rect {
    Rect(ScreenWidth / 2 - ButtonWidth / 2, ScreenHeight - fromBottom, ButtonWidth, ButtonHeight)
  }

  /** The `k`-th upgrade button, on the right edge, 70 pixels below the previous one. */
  function UpgradeButton(k: nat): Rect {
    Rect(ScreenWidth - ButtonWidth - UiPadding, 180 + k * (ButtonHeight + 20), ButtonWidth, ButtonHeight)
  }

  /** Every button with its rectangle, in the order the buttons are created. */
  const Buttons: seq<(string, Rect)> := [
    (ContinueId, CentredButton(100)),
    (StartId, CentredButton(150)),
    (ResetId, CentredButton(85)),
    (LineLength, UpgradeButton(0)),
    (HookCapacity, UpgradeButton(1)),
    (RoundTimer, UpgradeButton(2))
  ]

  /** The upgrade buttons, in the order a click scans them. */
  const UpgradeButtons: seq<(string, Rect)> := Buttons[3..]

  /** Where the buttons are: three centred ones 200 wide, three upgrade ones at x 590. */
  lemma ButtonLayout()
    ensures |Buttons| == 6
    ensures Buttons[0] == (ContinueId, Rect(300, 500, 200, 50))
    ensures Buttons[1] == (StartId, Rect(300, 450, 200, 50))
    ensures Buttons[2] == (ResetId, Rect(300, 515, 200, 50))
    ensures UpgradeButtons == [(LineLength, Rect(590, 180, 200, 50)),
                               (HookCapacity, Rect(590, 250, 200, 50)),
                               (RoundTimer, Rect(590, 320, 200, 50))]
  {
  }

  /**
   * The first button, in order, whose rectangle holds the point: its
   * position, or None when no rectangle holds it.
   */
  function FirstHit(bs: seq<(string, Rect)>, p: Point): (r: Option<nat>)
    ensures r.Some? ==> && r.value < |bs| && bs[r.value].1.CollidePoint(p)
                        && forall j :: 0 <= j < r.value ==> !bs[j].1.CollidePoint(p)
    ensures r.None? ==> forall j :: 0 <= j < |bs| ==> !bs[j].1.CollidePoint(p)
  {
    if bs == [] then None
    else if bs[0].1.CollidePoint(p) then Some(0)
    else match FirstHit(bs[1..], p)
      case None => None
      case Some(i) => Some(i + 1)
  }

  /** The upgrade buttons do not overlap, so the one under the pointer is the first hit. */
  lemma UpgradeHitIsFirst(p: Point)
    ensures forall i :: 0 <= i < |UpgradeButtons| && UpgradeButtons[i].1.CollidePoint(p) ==>
              FirstHit(UpgradeButtons, p) == Some(i)
  {
    ButtonLayout();
  }

  /** The button a hover lands on: the id of the first hit. */
  function HoverTarget(bs: seq<(string, Rect)>, p: Point): Option<string> {
    match FirstHit(bs, p)
    case None => None
    case Some(i) => Some(bs[i].0)
  }

  /**
   * Which upgrade a click buys: the first upgrade button under the pointer
   * decides; its id when that upgrade is below its top level and
   * affordable, None otherwise or when no upgrade button is under it.
   */
  function UpgradeClick(s: Progress.Snapshot, ubs: seq<(string, Rect)>, p: Point): (r: Option<string>)
    requires s.upgrades.Keys == UpgradeCosts.Keys
    requires forall i :: 0 <= i < |ubs| ==> ubs[i].0 in UpgradeCosts
    ensures r == match FirstHit(ubs, p)
                 case None => None
                 case Some(i) => if Progress.UpgradePurchase(s, ubs[i].0).0 then Some(ubs[i].0) else None
  {
    if ubs == [] then None
    else if ubs[0].1.CollidePoint(p) then
      var id := ubs[0].0;
      var level := s.upgrades[id];
      if level >= |UpgradeCosts[id]| then None
      else if s.coins < UpgradeCosts[id][level] then None
      else Some(id)
    else UpgradeClick(s, ubs[1..], p)
  }

  /** Whenever a click selects an upgrade, buying that upgrade succeeds. */
  lemma ClickedUpgradeIsAffordable(s: Progress.Snapshot, p: Point)
    requires s.upgrades.Keys == UpgradeCosts.Keys
    ensures var r := UpgradeClick(s, UpgradeButtons, p);
            r.Some? ==> r.value in UpgradeCosts && Progress.UpgradePurchase(s, r.value).0
                        && exists i :: 0 <= i < |UpgradeButtons| && UpgradeButtons[i] .0 == r.value
                                       && UpgradeButtons[i].1.CollidePoint(p)
  {
    ButtonLayout();
    var r := UpgradeClick(s, UpgradeButtons, p);
    if r.Some? {
      var i := FirstHit(UpgradeButtons, p).value;
      assert UpgradeButtons[i].0 == r.value;
    }
  }

  /** What the shop shows for an upgrade: its next price (None for "MAX") and whether it is affordable. */
  datatype Offer = Offer(price: Option<nat>, canAfford: bool) {
    /** The button is greyed out when a price is shown but cannot be paid. */
    predicate GreyedOut() {
      price.Some? && !canAfford
    }
  }

  /** The label and affordability of an upgrade, as the shop decides them. */
  function UpgradeOffer(s: Progress.Snapshot, id: string): (o: Offer)
    requires s.upgrades.Keys == UpgradeCosts.Keys && id in UpgradeCosts
    ensures o.price.None? <==> s.upgrades[id] >= |UpgradeCosts[id]|
    ensures o.price.Some? ==> o.price.value == UpgradeCosts[id][s.upgrades[id]]
    ensures o.canAfford <==> Progress.UpgradePurchase(s, id).0
    ensures o.GreyedOut() <==> s.upgrades[id] < |UpgradeCosts[id]| && s.coins < UpgradeCosts[id][s.upgrades[id]]
  {
    var level := s.upgrades[id];
    if level >= |UpgradeCosts[id]| then Offer(None, false)
    else
      var cost := UpgradeCosts[id][level];
      Offer(Some(cost), s.coins >= cost)
  }

  /** An upgrade button is highlighted only when hovered, priced and affordable. */
  function Highlighted(s: Progress.Snapshot, hover: Option<string>, id: string): (lit: bool)
    requires s.upgrades.Keys == UpgradeCosts.Keys && id in UpgradeCosts
    ensures lit <==> hover == Some(id) && Progress.UpgradePurchase(s, id).0
  {
    var o := UpgradeOffer(s, id);
    hover == Some(id) && o.canAfford && o.price.Some?
  }

  /**
   * Whole seconds left in the round, floored, and never below zero: zero
   * exactly when less than a second remains.
   */
  function TimeLeft(duration: int, timer: int): (secs: nat)
    ensures secs == 0 <==> duration - timer < 1000
    ensures duration - timer >= 0 ==> secs * 1000 <= duration - timer < (secs + 1) * 1000
  {
    Max(0, (duration - timer) / 1000)
  }

  /** No point lies on two of the shop's own buttons (start, reset and the upgrades). */
  lemma ShopButtonsDisjoint(p: Point, i: nat, j: nat)
    requires 1 <= i < j < |Buttons|
    ensures !(Buttons[i].1.CollidePoint(p) && Buttons[j].1.CollidePoint(p))
  {
    ButtonLayout();
  }

  /**
   * The results screen's continue button overlaps the shop's reset button,
   * and it comes first in the hover scan: on the overlap the shop hovers
   * "continue", so the reset button is not highlighted there.
   */
  lemma ContinueShadowsReset()
    ensures Buttons[0].1.CollidePoint(Point(400, 520)) && Buttons[2].1.CollidePoint(Point(400, 520))
    ensures HoverTarget(Buttons, Point(400, 520)) == Some(ContinueId)
  {
    ButtonLayout();
    assert FirstHit(Buttons, Point(400, 520)) == Some(0);
  }

  class UI {
    const economy: Progress.GameState
    var hoverButton: Option<string>

    constructor (economy: Progress.GameState)
      ensures this.economy == economy && hoverButton == None
    {
      this.economy := economy;
      hoverButton := None;
    }

    /** `update_shop_hover`: the first button under the pointer, or none. */
    method UpdateShopHover(mouse: Point)
      modifies this`hoverButton
      ensures hoverButton == HoverTarget(Buttons, mouse)
    {
      hoverButton := None;
      var i := 0;
      while i < |Buttons|
        invariant 0 <= i <= |Buttons|
        invariant forall j :: 0 <= j < i ==> !Buttons[j].1.CollidePoint(mouse)
        invariant hoverButton == None
      {
        if Buttons[i].1.CollidePoint(mouse) {
          hoverButton := Some(Buttons[i].0);
          break;
        }
        i := i + 1;
      }
    }

    /** `check_continue_button`: the pointer is on the continue button. */
    function CheckContinueButton(mouse: Point): (clicked: bool)
      ensures clicked <==> 300 <= mouse.x < 500 && 500 <= mouse.y < 550
    {
      Buttons[0].1.CollidePoint(mouse)
    }

    /** `check_start_button`: the pointer is on the start button. */
    function CheckStartButton(mouse: Point): (clicked: bool)
      ensures clicked <==> 300 <= mouse.x < 500 && 450 <= mouse.y < 500
    {
      Buttons[1].1.CollidePoint(mouse)
    }

    /** `check_reset_button`: the pointer is on the reset button. */
    function CheckResetButton(mouse: Point): (clicked: bool)
      ensures clicked <==> 300 <= mouse.x < 500 && 515 <= mouse.y < 565
    {
      Buttons[2].1.CollidePoint(mouse)
    }

    /** `check_upgrade_buttons`: an upgrade that can be bought right now, or none. */
    function CheckUpgradeButtons(mouse: Point): (r: Option<string>)
      reads this, economy
      requires economy.Valid()
      ensures r.Some? ==> r.value in UpgradeCosts && Progress.UpgradePurchase(economy.Data(), r.value).0
      ensures (forall i :: 0 <= i < |UpgradeButtons| ==> !UpgradeButtons[i].1.CollidePoint(mouse)) ==> r.None?
      ensures r == match FirstHit(UpgradeButtons, mouse)
                   case None => None
                   case Some(i) => if Progress.UpgradePurchase(economy.Data(), UpgradeButtons[i].0).0
                                   then Some(UpgradeButtons[i].0) else None
      ensures forall i :: 0 <= i < |UpgradeButtons| && UpgradeButtons[i].1.CollidePoint(mouse) ==>
                r == if Progress.UpgradePurchase(economy.Data(), UpgradeButtons[i].0).0
                     then Some(UpgradeButtons[i].0) else None
    {
      ClickedUpgradeIsAffordable(economy.Data(), mouse);
      UpgradeHitIsFirst(mouse);
      UpgradeClick(economy.Data(), UpgradeButtons, mouse)
    }

    /** The seconds shown by the in-game timer: once the round runs, at most 35, the longest round. */
    function GameTimeLeft(roundTimer: int): (secs: nat)
      reads this, economy
      requires economy.Valid()
      ensures secs == TimeLeft(economy.GetRoundDuration(), roundTimer)
      ensures roundTimer >= 0 ==> secs <= (BaseRoundDuration + 5 * TimerIncreasePerLevel) / 1000
      ensures roundTimer >= economy.GetRoundDuration() ==> secs == 0
    {
      TimeLeft(economy.GetRoundDuration(), roundTimer)
    }
  }
}
