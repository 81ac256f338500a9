# Mouse Wheelie container-screen input dispatch, modelled in Dafny

This project models the input-dispatch layer that Mouse Wheelie mixes into
Minecraft's `HandledScreen`. The layer turns a left-button drag, a
left-button click, a wheel tick or a sort trigger, together with the
modifier keys and the mod's configuration, into bulk inventory operations.
Each handler is a pure, total function. It takes an immutable snapshot of
its inputs and returns the commands it issues, in order, plus its verdict:
whether a click is consumed, the PASS/SUCCESS/FAILURE of a scroll, or
whether a sort was started.

Modules:

- `Inputs` (inputs.dfy): slots, item stacks, equipment slots, modifier
  keys, configuration toggles, and the `Command` values. A command is a
  transfer-helper operation on a slot, the helper's scroll operation, a
  direct call of the screen's single-slot click handler, a click event
  pushed onto the paced queue, or a sort run.
- `DragDispatch` (drag.dfy): `onMouseDragged`. This covers the hovered
  slot's action and the "better fast dragging" sampling pass.
- `ClickDispatch` (click.dfy): `onMouseClick(double, double, int, …)`.
- `ScrollDispatch` (scroll.dfy): `mouseWheelie_onMouseScroll` and the
  armor quick-equip macro.
- `SortGuard` (sort.dfy): `mouseWheelie_triggerSort`.

Modelling choices:

- Modifier keys are read once per gesture into a `Modifiers` snapshot.
  The source calls `hasAltDown()`, `hasShiftDown()` and
  `hasControlDown()` again in each branch. The model assumes these reads
  agree within one call.
- Drag geometry is given as inputs. `dist` is the length of the drag
  vector as a real number. `probe(i)` is the slot that `getSlotAt`
  finds at the i-th sample point, or none. The number of sample points,
  `ProbeCount`, is floor(dist / 16) when dist > 16 and zero otherwise.
  It is computed exactly on reals.
- Slot lookups, the creative-mode flag, the middle-button state, the
  `InventoryScreen` test and the item's preferred equipment slot are
  plain input fields.
- The armor macro has a behavioural partner. `Exchange` reads a
  left-button PICKUP as swapping the cursor stack with the slot's stack.
  This is an assumption about Minecraft, not code in this file. Vanilla
  behaves this way when one of the two stacks is empty (the click takes or
  places the whole stack). It also behaves this way when both hold items
  that cannot merge and the slot accepts the cursor's item. It does not
  when the slot refuses the cursor's item, such as a non-armor stack over
  an armor slot; then the click changes nothing. Under this reading the
  macro swaps the hovered stack with the armor slot's stack
  (`ArmorSwapExchanges`).
- Scrolling down over a worn armor piece in its own armor slot is an edge
  case. There the hovered slot id equals `8 - entitySlotId`, so the three
  clicks hit one slot. With an empty cursor the worn piece ends up on the
  cursor and the armor slot is left empty (`ArmorSwapOnItsOwnSlot`).

Behaviour that is easy to misread:

- The fast-dragging pass runs whether or not a slot is under the pointer.
  It sits outside the `hoveredSlot != null` block (lines 99-128).
- In a click, the alt-dropping branch is chosen by `enableAltDropping &&
  alt` alone. With no hovered slot the click is not consumed, and the
  control branch is not tried (lines 135-148).
- A scroll is FAILURE when alt is held only if scrolling is enabled. When
  scrolling is disabled, every scroll is PASS (lines 170-171, 192).
- The sample points of the fast-dragging pass are
  `(x, y) + delta - 16 * i * delta / dist` for i = 0..n-1 (lines 104-105).
  They start one whole `delta` beyond the pointer `(x, y)` and step back
  towards it, and the last one is at least 16 units short of it. If
  `delta` is the motion since the previous event (current minus
  previous), these points lie ahead of the pointer, not on the path just
  travelled. That looks unintended. The geometry is an input here, so the
  model does not check this.

## Model

| member | source | states |
|---|---|---|
| DragDispatch.ProbeCount | src/main/java/de/siphalor/mousewheelie/client/mixin/gui/screen/MixinAbstractContainerScreen.java:99-103 | A drag no longer than 16 gives no sample points. A longer one gives n >= 1 points, where 16·n <= dist < 16·(n+1), which is floor(dist/16). |
| DragDispatch.DragOp | src/main/java/de/siphalor/mousewheelie/client/mixin/gui/screen/MixinAbstractContainerScreen.java:90-96 | Priority for the drag action: DropStackLocked exactly when alt-dropping is enabled and alt is held. Otherwise SendStackLocked exactly when shift is held. Otherwise SendAllOfAKind exactly when control is held. Otherwise no action. |
| DragDispatch.Hits | src/main/java/de/siphalor/mousewheelie/client/mixin/gui/screen/MixinAbstractContainerScreen.java:102-110 | There are at most n hits. There are no hits exactly when every one of the n probes misses. |
| DragDispatch.SampleProbes | src/main/java/de/siphalor/mousewheelie/client/mixin/gui/screen/MixinAbstractContainerScreen.java:102-110 | The sampling loop, probing i = 0..n-1 and keeping the slots found, collects exactly the reference sequence `Hits`. |
| DragDispatch.ApplyEach | src/main/java/de/siphalor/mousewheelie/client/mixin/gui/screen/MixinAbstractContainerScreen.java:112-126 | Applying an operation to a slot sequence gives one command per slot, in slot order, each with that operation. |
| DragDispatch.HoveredCommands | src/main/java/de/siphalor/mousewheelie/client/mixin/gui/screen/MixinAbstractContainerScreen.java:88-97 | At most one command. There is one exactly when a slot is hovered and an action is selected, and it is that action on the hovered slot. |
| DragDispatch.SampledCommands | src/main/java/de/siphalor/mousewheelie/client/mixin/gui/screen/MixinAbstractContainerScreen.java:99-127 | Nothing unless `betterFastDragging` is set and dist > 16, and nothing without a selected action. When the pass runs, one command per sampled hit: the k-th is the selected action on the k-th hit, so no hit gives no command. |
| DragDispatch.OnMouseDragged | src/main/java/de/siphalor/mousewheelie/client/mixin/gui/screen/MixinAbstractContainerScreen.java:86-130 | A non-primary button issues nothing. With no action selected, nothing is issued. Every issued command is a helper command with the one operation the modifiers select. |
| DragDispatch.AltIgnoredWhenDisabled | src/main/java/de/siphalor/mousewheelie/client/mixin/gui/screen/MixinAbstractContainerScreen.java:90-96 | When alt-dropping is disabled, toggling alt does not change the drag's commands. Alt falls through to shift and control. |
| DragDispatch.HoveredSlotFirst | src/main/java/de/siphalor/mousewheelie/client/mixin/gui/screen/MixinAbstractContainerScreen.java:88-97 | With a hovered slot and an action selected, the first command is that action on the hovered slot. Without the fast pass, it is the only command. |
| DragDispatch.SamplingIgnoresHover | src/main/java/de/siphalor/mousewheelie/client/mixin/gui/screen/MixinAbstractContainerScreen.java:88-110 | The drag's commands are the hovered part, at most one command and none without a hovered slot, followed by exactly what the same drag issues with nothing hovered. The pass does not depend on hover. |
| DragDispatch.NoSamplingUnlessFast | src/main/java/de/siphalor/mousewheelie/client/mixin/gui/screen/MixinAbstractContainerScreen.java:99-101 | Without `betterFastDragging`, or with dist <= 16, at most one command is issued. One is issued exactly when the button is primary, a slot is hovered and an action is selected. |
| DragDispatch.SampledInProbeOrder | src/main/java/de/siphalor/mousewheelie/client/mixin/gui/screen/MixinAbstractContainerScreen.java:99-126 | When the pass runs, the command count is the hovered count plus the number of hits. The k-th command after the hovered one is the selected action on the k-th hit. |
| DragDispatch.HitIndices | src/main/java/de/siphalor/mousewheelie/client/mixin/gui/screen/MixinAbstractContainerScreen.java:103-109 | The hits are the successful probes in order, with duplicates kept. A strictly increasing list of probe indices covers every probe that found a slot, and the slots at those indices are the hits, one for one. |
| ClickDispatch.OnMouseClick | src/main/java/de/siphalor/mousewheelie/client/mixin/gui/screen/MixinAbstractContainerScreen.java:133-161 | A non-primary button leaves the click untouched. The click is consumed exactly when the button is primary, a slot is hovered, and either alt-dropping is selected or control is held. An unconsumed click issues nothing. In alt-dropping mode, ctrl+shift gives DropAllFrom, ctrl gives DropAllOfAKind, and otherwise a THROW click with data 1 on the hovered slot's id. In control mode, shift gives SendAllFrom and otherwise SendAllOfAKind. |
| ClickDispatch.ModesExclusive | src/main/java/de/siphalor/mousewheelie/client/mixin/gui/screen/MixinAbstractContainerScreen.java:135-159 | Every command of a click acts on the hovered slot. A drop or throw happens only in alt-dropping mode. A send happens only outside it, with control held. |
| ClickDispatch.AltWithoutSlotFallsNowhere | src/main/java/de/siphalor/mousewheelie/client/mixin/gui/screen/MixinAbstractContainerScreen.java:135-137 | With alt-dropping selected and no hovered slot, the click is untouched even when control is held. |
| ClickDispatch.AltIgnoredWhenDisabled | src/main/java/de/siphalor/mousewheelie/client/mixin/gui/screen/MixinAbstractContainerScreen.java:135-149 | When alt-dropping is disabled, toggling alt does not change the click's outcome. |
| ScrollDispatch.ArmorSwap | src/main/java/de/siphalor/mousewheelie/client/mixin/gui/screen/MixinAbstractContainerScreen.java:182-184 | The macro is three queued PICKUP clicks with button 0 on the handler's sync id. They hit the hovered slot, then slot 8 - entitySlotId, then the hovered slot again. |
| ScrollDispatch.ArmorSlotId | src/main/java/de/siphalor/mousewheelie/client/mixin/gui/screen/MixinAbstractContainerScreen.java:183 | The armor entity indices 0 to 3 map to the player screen's armor column, slots 5 to 8. |
| ScrollDispatch.OnMouseScroll | src/main/java/de/siphalor/mousewheelie/client/mixin/gui/screen/MixinAbstractContainerScreen.java:169-193 | Scrolling disabled gives PASS with no commands. FAILURE happens exactly when scrolling is enabled and alt is held. SUCCESS happens exactly when scrolling is enabled, alt is up and the hovered stack is non-empty. Any other verdict issues nothing. A SUCCESS issues exactly one of the armor macro or a single `scroll(hovered, amount < 0)`. It issues the macro exactly when the amount is negative, the screen is the inventory screen and the item prefers an armor slot. |
| ScrollDispatch.AltBlocksBeforeLookup | src/main/java/de/siphalor/mousewheelie/client/mixin/gui/screen/MixinAbstractContainerScreen.java:170-172 | With scrolling enabled and alt held, the outcome is FAILURE with no commands, whatever slot is hovered. |
| ScrollDispatch.ReplayPickups | src/main/java/de/siphalor/mousewheelie/client/mixin/gui/screen/MixinAbstractContainerScreen.java:182-184 | Replaying queued clicks keeps the same set of slots, and a slot that no click names keeps its stack. |
| ScrollDispatch.ArmorSwapExchanges | src/main/java/de/siphalor/mousewheelie/client/mixin/gui/screen/MixinAbstractContainerScreen.java:179-185 | When the hovered slot and its armor slot differ, replaying the macro swaps their stacks and leaves the cursor as it was. |
| ScrollDispatch.ArmorSwapOnItsOwnSlot | src/main/java/de/siphalor/mousewheelie/client/mixin/gui/screen/MixinAbstractContainerScreen.java:179-185 | When the hovered slot is its own armor slot and the cursor is empty, replaying the macro takes the worn piece onto the cursor and leaves the armor slot empty. |
| SortGuard.SelectMode | src/main/java/de/siphalor/mousewheelie/client/mixin/gui/screen/MixinAbstractContainerScreen.java:205-212 | The mode is one of the three configured modes, chosen by shift, then control, then primary. |
| SortGuard.TriggerSort | src/main/java/de/siphalor/mousewheelie/client/mixin/gui/screen/MixinAbstractContainerScreen.java:197-216 | A sort is started exactly when a slot is focused, the creative middle-click pick gesture is not in progress and the selected mode is configured. It then issues exactly one `Sort` with the selected mode. Otherwise it issues nothing. |
| SortGuard.NoFocusNeverSorts | src/main/java/de/siphalor/mousewheelie/client/mixin/gui/screen/MixinAbstractContainerScreen.java:198-199 | With no focused slot, nothing is sorted, whatever the modifiers and configuration. |
| SortGuard.PickBlockNeverSorts | src/main/java/de/siphalor/mousewheelie/client/mixin/gui/screen/MixinAbstractContainerScreen.java:200-203 | In creative mode with the middle button held, when exactly one of the focused stack and the cursor stack holds items, nothing is sorted, even with every mode configured. |
| SortGuard.AltIgnored | src/main/java/de/siphalor/mousewheelie/client/mixin/gui/screen/MixinAbstractContainerScreen.java:205-212 | Toggling alt never changes the sort outcome. |

## Left out

- Mixin plumbing (`@Inject`, `@Shadow`, `CallbackInfoReturnable`): "consumed" is a returned boolean.
- The memoized `ContainerScreenHelper` and its click callback that re-enters `onMouseClick` (lines 78-83): helper operations are opaque `Command` values.
- `InteractionManager` queueing and tick pacing: `pushClickEvent` is a `PushClick` command value. The queue is not part of this model.
- The `InventorySorter` algorithm, and the constructor call that runs before the mode check (line 204): a sort is a single `Sort(mode)` command.
- Floating-point geometry: the square root, the sample coordinates and `MathHelper.floor` on doubles (lines 100-105). The model takes the distance as an exact real and the probe results as a function. Double rounding at exact multiples of 16 is not modelled.
- `OnMouseScroll`: the scroll amount is a real, so a NaN amount is not modelled. For NaN, `amount < 0` is false.
- Live modifier re-reads between branches: one snapshot per call.
- Library lookups (`getSlotAt`, `MobEntity.getPreferredEquipmentSlot`, `GLFW.glfwGetMouseButton`, `instanceof InventoryScreen`, the creative flag) are inputs. The vanilla mapping from equipment slots to entity slot ids is an input too.
- `mouseWheelie_getSlotAt` (lines 163-166) only forwards to `getSlotAt`.
- Rendering and configuration loading.
