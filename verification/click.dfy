/**
  Click dispatch of the container screen. Two top-level modes exclude each
  other: alt-dropping (alt held with the feature enabled) is tried first,
  control-sending only when alt-dropping is not selected. A click either
  issues one command and is consumed, or issues nothing and passes on to
  the screen's default handling.
 */
module ClickDispatch {
  import opened Inputs

  /** The data value the alt-drop click passes to the default click handler. */
  const ThrowData: int := 1

  /** A click's commands and whether the default handling is suppressed. */
  datatype ClickOutcome = ClickOutcome(cmds: seq<Command>, consumed: bool)

  /** The outcome that lets the click through untouched. */
  const Untouched := ClickOutcome([], false)

  /** Whether the alt-dropping mode is selected. */
  predicate AltDropping(cfg: Config, mods: Modifiers) {
    cfg.enableAltDropping && mods.alt
  }

  /** The click handler for a click of `button` with `hovered` under the
      pointer. */
  function OnMouseClick(cfg: Config, mods: Modifiers, button: int, hovered: Option<Slot>): (r: ClickOutcome)
    ensures button != PrimaryButton ==> r == Untouched
    ensures r.consumed <==>
      button == PrimaryButton && hovered.Some? && (AltDropping(cfg, mods) || mods.control)
    ensures !r.consumed ==> r.cmds == []
    ensures r.consumed && AltDropping(cfg, mods) ==> r.cmds == [
      if mods.control && mods.shift then Helper(DropAllFrom, hovered.value)
      else if mods.control then Helper(DropAllOfAKind, hovered.value)
      else SlotClick(hovered.value, hovered.value.id, ThrowData, Throw)]
    ensures r.consumed && !AltDropping(cfg, mods) ==> r.cmds == [
      if mods.shift then Helper(SendAllFrom, hovered.value)
      else Helper(SendAllOfAKind, hovered.value)]
  {
    if button != PrimaryButton then Untouched
    else if AltDropping(cfg, mods) then
      match hovered
      case Some(s) =>
        if mods.control then
          if mods.shift then ClickOutcome([Helper(DropAllFrom, s)], true)
          else ClickOutcome([Helper(DropAllOfAKind, s)], true)
        else
          ClickOutcome([SlotClick(s, s.id, ThrowData, Throw)], true)
      case None => Untouched
    else if mods.control then
      match hovered
      case Some(s) =>
        if mods.shift then ClickOutcome([Helper(SendAllFrom, s)], true)
        else ClickOutcome([Helper(SendAllOfAKind, s)], true)
      case None => Untouched
    else
      Untouched
  }

  /** The two modes never mix: a click that drops was in alt-dropping mode
      and a click that sends was not; every command acts on the hovered
      slot. */
  lemma ModesExclusive(cfg: Config, mods: Modifiers, button: int, hovered: Option<Slot>)
    ensures var r := OnMouseClick(cfg, mods, button, hovered);
      forall c :: c in r.cmds ==>
        && (IsDrop(c) || c.SlotClick? ==> AltDropping(cfg, mods))
        && (IsSend(c) ==> !AltDropping(cfg, mods) && mods.control)
        && (c.Helper? || c.SlotClick?)
        && c.slot == hovered.value
  {
  }

  /** With alt-dropping selected but nothing under the pointer the click is
      let through, even when control is held: the control branch is not
      tried. */
  lemma AltWithoutSlotFallsNowhere(cfg: Config, mods: Modifiers, button: int)
    requires AltDropping(cfg, mods)
    ensures OnMouseClick(cfg, mods, button, None) == Untouched
  {
  }

  /** Holding alt while alt-dropping is disabled changes nothing: the click
      is decided as if alt were up. */
  lemma AltIgnoredWhenDisabled(cfg: Config, mods: Modifiers, button: int, hovered: Option<Slot>)
    requires !cfg.enableAltDropping
    ensures OnMouseClick(cfg, mods, button, hovered) ==
      OnMouseClick(cfg, mods.(alt := !mods.alt), button, hovered)
  {
  }
}
