/**
  The vocabulary shared by the dispatch functions of the container screen:
  the snapshot of inputs a gesture is decided on (slots, modifier keys,
  configuration toggles) and the commands a decision issues.

  Everything the screen calls out to -- the transfer helper, the click-event
  queue, the sorter -- appears here only as a command value; the dispatch
  functions return the commands in the order the screen would issue them.
 */
module Inputs {

  /** A value that may be absent; stands in for a nullable reference. */
  datatype Option<+T> = None | Some(value: T)

  /** The mouse button that triggers every bulk gesture (the left button). */
  const PrimaryButton: int := 0

  /** Category of an equipment slot: held in a hand, or worn as armor. */
  datatype EquipmentType = Hand | Armor

  /** The equipment slot an item prefers, with its index among the entity's
      slots of that category. */
  datatype EquipmentSlot = EquipmentSlot(kind: EquipmentType, entitySlotId: int)

  /** What the dispatcher needs to know about a stack of items. */
  datatype ItemStack = ItemStack(isEmpty: bool, preferredSlot: EquipmentSlot)

  /** A slot of the open screen's handler: its id and the stack it holds. */
  datatype Slot = Slot(id: int, stack: ItemStack)

  /** The modifier keys, read once at the start of a gesture. */
  datatype Modifiers = Modifiers(shift: bool, control: bool, alt: bool)

  /** An externally configured sort strategy, known here only by name. */
  datatype SortMode = SortMode(name: string)

  /** The configuration toggles the dispatcher consults; an absent sort mode
      means sorting is disabled for that trigger. */
  datatype Config = Config(
    enableAltDropping: bool,
    betterFastDragging: bool,
    scrollingEnabled: bool,
    shiftSort: Option<SortMode>,
    controlSort: Option<SortMode>,
    primarySort: Option<SortMode>)

  /** The kinds of vanilla slot action this layer issues. */
  datatype SlotActionType = Pickup | Throw

  /** The bulk operations of the transfer helper, each applied to one slot. */
  datatype HelperOp =
    | DropStackLocked
    | SendStackLocked
    | SendAllOfAKind
    | DropAllOfAKind
    | DropAllFrom
    | SendAllFrom

  /** One call out of the dispatcher, in the order it is made. */
  datatype Command =
      /** A transfer-helper bulk operation on a slot. */
    | Helper(op: HelperOp, slot: Slot)
      /** The transfer helper's scroll operation on a slot. */
    | Scroll(slot: Slot, scrollingDown: bool)
      /** A direct call of the screen's own single-slot click handler. */
    | SlotClick(slot: Slot, slotId: int, data: int, action: SlotActionType)
      /** A click event pushed onto the paced click-event queue. */
    | PushClick(syncId: int, slotId: int, button: int, action: SlotActionType)
      /** A run of the sorter with the given mode. */
    | Sort(mode: SortMode)

  /** The helper operations that throw items out of the inventory. */
  predicate IsDrop(c: Command) {
    c.Helper? && c.op in {DropStackLocked, DropAllOfAKind, DropAllFrom}
  }

  /** The helper operations that move items to the other inventory half. */
  predicate IsSend(c: Command) {
    c.Helper? && c.op in {SendStackLocked, SendAllOfAKind, SendAllFrom}
  }
}
