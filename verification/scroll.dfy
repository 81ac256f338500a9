/**
  Scroll resolution of the container screen: a tri-state verdict for one
  wheel tick, with the quick-equip macro that swaps a hovered armor item
  into its armor slot on the player's own inventory screen.
 */
module ScrollDispatch {
  import opened Inputs

  /** The verdict on a scroll event: PASS lets other handlers see it,
      SUCCESS and FAILURE end its handling. */
  datatype ScrollAction = Pass | Success | Failure

  /** One wheel tick: the slot under the pointer, the scroll amount
      (negative when scrolling down), whether the open screen is the
      player's inventory screen and the sync id of its handler. */
  datatype ScrollEvent = ScrollEvent(
    hovered: Option<Slot>,
    amount: real,
    onInventoryScreen: bool,
    syncId: int)

  /** A scroll's verdict and the commands it issued. */
  datatype ScrollOutcome = ScrollOutcome(action: ScrollAction, cmds: seq<Command>)

  /** The highest slot id of the player screen's armor column; armor slot
      ids count down from it by the equipment slot's entity index. */
  const ArmorBase: int := 8

  /** The slot of the player screen that holds armor of the given kind. The
      four armor entity indices 0 (feet) to 3 (head) land in the armor
      column, slots 5 to 8, head first. */
  function ArmorSlotId(eq: EquipmentSlot): (id: int)
    ensures 0 <= eq.entitySlotId <= 3 ==> 5 <= id <= 8
  {
    ArmorBase - eq.entitySlotId
  }

  /** The three queued left-button PICKUP clicks of the quick-equip macro:
      the hovered slot, its armor slot, the hovered slot again. */
  function ArmorSwap(syncId: int, hovered: Slot): (cmds: seq<Command>)
    ensures |cmds| == 3
    ensures forall k :: 0 <= k < 3 ==>
      cmds[k].PushClick? && cmds[k].syncId == syncId &&
      cmds[k].button == PrimaryButton && cmds[k].action == Pickup
    ensures cmds[0].slotId == cmds[2].slotId == hovered.id
    ensures cmds[1].slotId == ArmorSlotId(hovered.stack.preferredSlot)
  {
    var armor := ArmorSlotId(hovered.stack.preferredSlot);
    [ PushClick(syncId, hovered.id, PrimaryButton, Pickup),
      PushClick(syncId, armor, PrimaryButton, Pickup),
      PushClick(syncId, hovered.id, PrimaryButton, Pickup) ]
  }

  /** Whether a scroll over `s` runs the quick-equip macro: scrolling down,
      on the inventory screen, over an item that prefers an armor slot. */
  predicate WantsArmorSwap(e: ScrollEvent, s: Slot) {
    e.amount < 0.0 && e.onInventoryScreen && s.stack.preferredSlot.kind == Armor
  }

  /** The scroll handler. */
  function OnMouseScroll(cfg: Config, mods: Modifiers, e: ScrollEvent): (r: ScrollOutcome)
    ensures !cfg.scrollingEnabled ==> r == ScrollOutcome(Pass, [])
    ensures r.action == Failure <==> cfg.scrollingEnabled && mods.alt
    ensures r.action == Success <==>
      cfg.scrollingEnabled && !mods.alt && e.hovered.Some? && !e.hovered.value.stack.isEmpty
    ensures r.action != Success ==> r.cmds == []
    ensures r.action == Success ==>
      ((r.cmds == ArmorSwap(e.syncId, e.hovered.value)) !=
       (r.cmds == [Scroll(e.hovered.value, e.amount < 0.0)]))
    ensures r.action == Success ==>
      (r.cmds == ArmorSwap(e.syncId, e.hovered.value) <==> WantsArmorSwap(e, e.hovered.value))
  {
    if cfg.scrollingEnabled then
      if mods.alt then ScrollOutcome(Failure, [])
      else
        match e.hovered
        case None => ScrollOutcome(Pass, [])
        case Some(s) =>
          if s.stack.isEmpty then ScrollOutcome(Pass, [])
          else if WantsArmorSwap(e, s) then ScrollOutcome(Success, ArmorSwap(e.syncId, s))
          else ScrollOutcome(Success, [Scroll(s, e.amount < 0.0)])
    else
      ScrollOutcome(Pass, [])
  }

  /** Alt blocks the scroll before any slot is looked at: the verdict does
      not depend on the hovered slot. */
  lemma AltBlocksBeforeLookup(cfg: Config, mods: Modifiers, e: ScrollEvent, other: Option<Slot>)
    requires cfg.scrollingEnabled && mods.alt
    ensures OnMouseScroll(cfg, mods, e) == OnMouseScroll(cfg, mods, e.(hovered := other))
    ensures OnMouseScroll(cfg, mods, e) == ScrollOutcome(Failure, [])
  {
  }

  /** The slot contents the macro's clicks act on, with the cursor stack. */
  datatype Inventory = Inventory(slots: map<int, ItemStack>, cursor: ItemStack)

  /** A left-button PICKUP read as an exchange of the cursor stack with the
      slot's stack. This is what the vanilla click does when one of the two
      is empty (take or place the whole stack), and when both hold items
      that cannot merge and the slot accepts the cursor's item (swap). It
      does not hold when the slot refuses the cursor's item, for instance a
      non-armor stack on the cursor over an armor slot: then the click
      changes nothing. */
  function Exchange(inv: Inventory, id: int): (after: Inventory)
    requires id in inv.slots
    ensures after.slots.Keys == inv.slots.Keys
    ensures after.cursor == inv.slots[id] && after.slots[id] == inv.cursor
    ensures forall j :: j in inv.slots && j != id ==> after.slots[j] == inv.slots[j]
  {
    Inventory(inv.slots[id := inv.cursor], inv.slots[id])
  }

  /** Replaying queued PICKUP clicks one after another on the inventory:
      the same slots remain, and a slot that no click names keeps its stack. */
  function ReplayPickups(inv: Inventory, cmds: seq<Command>): (after: Inventory)
    requires forall k :: 0 <= k < |cmds| ==> cmds[k].PushClick? && cmds[k].slotId in inv.slots.Keys
    ensures after.slots.Keys == inv.slots.Keys
    ensures forall j :: j in inv.slots && (forall k :: 0 <= k < |cmds| ==> cmds[k].slotId != j) ==>
      after.slots[j] == inv.slots[j]
    decreases |cmds|
  {
    if cmds == [] then inv
    else ReplayPickups(Exchange(inv, cmds[0].slotId), cmds[1..])
  }

  /** With PICKUP acting as an exchange, the macro swaps the hovered stack
      with the armor slot's stack and hands the cursor back unchanged, when
      the two slots differ. */
  lemma {:induction false} ArmorSwapExchanges(inv: Inventory, syncId: int, hovered: Slot)
    requires hovered.id in inv.slots
    requires ArmorSlotId(hovered.stack.preferredSlot) in inv.slots
    requires hovered.id != ArmorSlotId(hovered.stack.preferredSlot)
    ensures var armor := ArmorSlotId(hovered.stack.preferredSlot);
      ReplayPickups(inv, ArmorSwap(syncId, hovered)) ==
        Inventory(inv.slots[hovered.id := inv.slots[armor]][armor := inv.slots[hovered.id]], inv.cursor)
  {
    var armor := ArmorSlotId(hovered.stack.preferredSlot);
    var cmds := ArmorSwap(syncId, hovered);
    var one := Exchange(inv, hovered.id);
    var two := Exchange(one, armor);
    var three := Exchange(two, hovered.id);
    assert ReplayPickups(inv, cmds) == ReplayPickups(one, cmds[1..]);
    assert ReplayPickups(one, cmds[1..]) == ReplayPickups(two, cmds[2..]);
    assert ReplayPickups(two, cmds[2..]) == ReplayPickups(three, cmds[3..]);
    assert three.slots == inv.slots[hovered.id := inv.slots[armor]][armor := inv.slots[hovered.id]];
  }

  /** When the hovered slot is itself the armor slot (scrolling down over a
      worn piece) and the cursor is empty, the macro's three clicks on one
      slot take the worn piece off: it ends on the cursor and the armor
      slot is left empty. */
  lemma {:induction false} ArmorSwapOnItsOwnSlot(inv: Inventory, syncId: int, hovered: Slot)
    requires hovered.id in inv.slots
    requires inv.cursor.isEmpty
    requires hovered.id == ArmorSlotId(hovered.stack.preferredSlot)
    ensures ReplayPickups(inv, ArmorSwap(syncId, hovered)) ==
      Inventory(inv.slots[hovered.id := inv.cursor], inv.slots[hovered.id])
    ensures var after := ReplayPickups(inv, ArmorSwap(syncId, hovered));
      after.cursor == inv.slots[hovered.id] && after.slots[hovered.id].isEmpty
  {
    var cmds := ArmorSwap(syncId, hovered);
    var one := Exchange(inv, hovered.id);
    var two := Exchange(one, hovered.id);
    var three := Exchange(two, hovered.id);
    assert ReplayPickups(inv, cmds) == ReplayPickups(one, cmds[1..]);
    assert ReplayPickups(one, cmds[1..]) == ReplayPickups(two, cmds[2..]);
    assert ReplayPickups(two, cmds[2..]) == ReplayPickups(three, cmds[3..]);
  }
}
