/**
  The sort guard of the container screen: whether a sort gesture may run,
  and with which configured mode.
 */
module SortGuard {
  import opened Inputs

  /** The state a sort trigger is decided on: the focused slot, whether the
      player is in creative mode, whether the middle mouse button is held,
      and whether the cursor stack is empty. */
  datatype SortTrigger = SortTrigger(
    focused: Option<Slot>,
    creative: bool,
    middleButtonDown: bool,
    cursorEmpty: bool)

  /** The sort command issued, if any, and whether a sort was started. */
  datatype SortOutcome = SortOutcome(cmds: seq<Command>, sorted: bool)

  /** The creative-mode middle-click gesture that picks a stack: exactly one
      of the focused stack and the cursor stack holds items. Sorting must
      not take it over. */
  predicate PickBlockGesture(t: SortTrigger)
    requires t.focused.Some?
  {
    t.creative && t.middleButtonDown && (!t.focused.value.stack.isEmpty == t.cursorEmpty)
  }

  /** The configured sort mode, by the priority shift > control > primary;
      alt plays no part. */
  function SelectMode(cfg: Config, mods: Modifiers): (m: Option<SortMode>)
    ensures m == cfg.shiftSort || m == cfg.controlSort || m == cfg.primarySort
    ensures mods.shift ==> m == cfg.shiftSort
    ensures !mods.shift && mods.control ==> m == cfg.controlSort
    ensures !mods.shift && !mods.control ==> m == cfg.primarySort
  {
    if mods.shift then cfg.shiftSort
    else if mods.control then cfg.controlSort
    else cfg.primarySort
  }

  /** The sort trigger: a sort runs, exactly once and with the selected
      mode, precisely when a slot is focused, the pick-block gesture is not
      in progress and the selected mode is configured. */
  function TriggerSort(cfg: Config, mods: Modifiers, t: SortTrigger): (r: SortOutcome)
    ensures r.sorted <==>
      t.focused.Some? && !PickBlockGesture(t) && SelectMode(cfg, mods).Some?
    ensures r.sorted ==> r.cmds == [Sort(SelectMode(cfg, mods).value)]
    ensures !r.sorted ==> r.cmds == []
  {
    if t.focused.None? then SortOutcome([], false)
    else if PickBlockGesture(t) then SortOutcome([], false)
    else
      match SelectMode(cfg, mods)
      case None => SortOutcome([], false)
      case Some(mode) => SortOutcome([Sort(mode)], true)
  }

  /** Without a focused slot nothing is sorted, whatever the modifiers and
      the configuration. */
  lemma NoFocusNeverSorts(cfg: Config, mods: Modifiers, t: SortTrigger)
    requires t.focused.None?
    ensures TriggerSort(cfg, mods, t) == SortOutcome([], false)
  {
  }

  /** The pick-block gesture is never taken over, even with every sort mode
      configured. */
  lemma PickBlockNeverSorts(cfg: Config, mods: Modifiers, t: SortTrigger)
    requires t.focused.Some? && PickBlockGesture(t)
    ensures TriggerSort(cfg, mods, t) == SortOutcome([], false)
  {
  }

  /** The alt key has no say in sorting. */
  lemma AltIgnored(cfg: Config, mods: Modifiers, t: SortTrigger)
    ensures TriggerSort(cfg, mods, t) == TriggerSort(cfg, mods.(alt := !mods.alt), t)
  {
  }
}
