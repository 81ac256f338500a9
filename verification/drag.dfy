/**
  Drag dispatch of the container screen: the bulk action for the slot under
  the pointer, followed by the optional "better fast dragging" pass that
  samples the drag vector at a fixed spacing and repeats the same action on
  every slot it hits.
 */
module DragDispatch {
  import opened Inputs

  /** Screen distance between two consecutive sample points of a fast drag. */
  const SampleSpacing: real := 16.0

  /** One drag event as the screen sees it. `dist` is the length of the drag
      vector `delta` (the square root is taken outside the model); `probe(i)`
      is the slot found under the i-th sample point. That point is the
      pointer `(x, y)` moved by `delta`, then `i` spacings back along `delta`:
      `(x, y) + delta - 16 * i * delta / dist`. The points start one whole
      `delta` beyond the pointer and step back towards it without reaching
      it, since the last one lies at least one spacing away. */
  datatype Drag = Drag(
    button: int,
    hovered: Option<Slot>,
    dist: real,
    probe: nat -> Option<Slot>)

  /** The number of sample points of a drag of length `dist`: none for a
      drag no longer than one spacing, otherwise as many whole spacings as
      fit into the drag. */
  function ProbeCount(dist: real): (n: nat)
    ensures dist <= SampleSpacing ==> n == 0
    ensures dist > SampleSpacing ==>
      1 <= n && SampleSpacing * n as real <= dist < SampleSpacing * (n + 1) as real
  {
    if dist > SampleSpacing then
      var q := dist / SampleSpacing;
      assert q > 1.0;
      q.Floor
    else
      0
  }

  /** The bulk action a drag applies, by the strict priority
      alt (when alt-dropping is enabled) > shift > control. */
  function DragOp(cfg: Config, mods: Modifiers): (op: Option<HelperOp>)
    ensures op == Some(DropStackLocked) <==> cfg.enableAltDropping && mods.alt
    ensures op == Some(SendStackLocked) <==>
      !(cfg.enableAltDropping && mods.alt) && mods.shift
    ensures op == Some(SendAllOfAKind) <==>
      !(cfg.enableAltDropping && mods.alt) && !mods.shift && mods.control
    ensures op == None <==>
      !(cfg.enableAltDropping && mods.alt) && !mods.shift && !mods.control
  {
    if cfg.enableAltDropping && mods.alt then Some(DropStackLocked)
    else if mods.shift then Some(SendStackLocked)
    else if mods.control then Some(SendAllOfAKind)
    else None
  }

  /** The slots hit by the first `n` sample points, in probe order; misses
      are dropped and a slot hit twice appears twice. */
  function Hits(probe: nat -> Option<Slot>, n: nat): (hits: seq<Slot>)
    ensures |hits| <= n
    ensures hits == [] <==> forall i :: 0 <= i < n ==> probe(i).None?
  {
    if n == 0 then []
    else
      var earlier := Hits(probe, n - 1);
      match probe(n - 1)
      case Some(s) => earlier + [s]
      case None => earlier
  }

  /** The sampling loop as the screen runs it: probe the points 0..n-1 in
      turn and collect the slots found. It collects exactly `Hits`. */
  method SampleProbes(probe: nat -> Option<Slot>, n: nat) returns (slots: seq<Slot>)
    ensures slots == Hits(probe, n)
  {
    slots := [];
    var i := 0;
    while i < n
      invariant 0 <= i <= n
      invariant slots == Hits(probe, i)
    {
      var cur := probe(i);
      if cur.Some? {
        slots := slots + [cur.value];
      }
      i := i + 1;
    }
  }

  /** Applying one helper operation to each slot of a sequence: one command
      per slot, in the order of the slots. */
  function ApplyEach(op: HelperOp, slots: seq<Slot>): (cmds: seq<Command>)
    ensures |cmds| == |slots|
    ensures forall k :: 0 <= k < |slots| ==> cmds[k] == Helper(op, slots[k])
  {
    if slots == [] then []
    else [Helper(op, slots[0])] + ApplyEach(op, slots[1..])
  }

  /** The command issued for the slot directly under the pointer: the
      selected action on that slot, or nothing when no slot is hovered or no
      action is selected. */
  function HoveredCommands(cfg: Config, mods: Modifiers, hovered: Option<Slot>): (cmds: seq<Command>)
    ensures |cmds| <= 1
    ensures cmds != [] <==> hovered.Some? && DragOp(cfg, mods).Some?
    ensures cmds != [] ==> cmds[0] == Helper(DragOp(cfg, mods).value, hovered.value)
  {
    match (hovered, DragOp(cfg, mods))
    case (Some(s), Some(op)) => [Helper(op, s)]
    case _ => []
  }

  /** The commands of the fast-dragging pass. The pass runs only when it is
      enabled, the drag is longer than one spacing and an action is
      selected; it then issues that action once per sampled hit, in probe
      order, and nothing when no probe hits. */
  function SampledCommands(cfg: Config, mods: Modifiers, d: Drag): (cmds: seq<Command>)
    ensures !(cfg.betterFastDragging && d.dist > SampleSpacing) ==> cmds == []
    ensures DragOp(cfg, mods).None? ==> cmds == []
    ensures cfg.betterFastDragging && d.dist > SampleSpacing && DragOp(cfg, mods).Some? ==>
      var hits := Hits(d.probe, ProbeCount(d.dist));
      && |cmds| == |hits|
      && forall k :: 0 <= k < |hits| ==> cmds[k] == Helper(DragOp(cfg, mods).value, hits[k])
  {
    if cfg.betterFastDragging && d.dist > SampleSpacing then
      var slots := Hits(d.probe, ProbeCount(d.dist));
      if slots != [] && DragOp(cfg, mods).Some? then
        ApplyEach(DragOp(cfg, mods).value, slots)
      else
        []
    else
      []
  }

  /** The whole drag handler: the hovered slot's command, then those of the
      fast-dragging pass. Only the primary button does anything, and every
      command issued is the one action the modifiers select. */
  function OnMouseDragged(cfg: Config, mods: Modifiers, d: Drag): (cmds: seq<Command>)
    ensures d.button != PrimaryButton ==> cmds == []
    ensures DragOp(cfg, mods).None? ==> cmds == []
    ensures forall c :: c in cmds ==> c.Helper? && DragOp(cfg, mods) == Some(c.op)
  {
    if d.button != PrimaryButton then []
    else HoveredCommands(cfg, mods, d.hovered) + SampledCommands(cfg, mods, d)
  }

  /** Holding alt while alt-dropping is disabled changes nothing: the drag
      falls through to the shift and control cases as if alt were up. */
  lemma AltIgnoredWhenDisabled(cfg: Config, mods: Modifiers, d: Drag)
    requires !cfg.enableAltDropping
    ensures OnMouseDragged(cfg, mods, d) == OnMouseDragged(cfg, mods.(alt := !mods.alt), d)
  {
  }

  /** With a hovered slot and an action selected, the drag's first command is
      that action on the hovered slot, and it is the only command unless the
      fast-dragging pass runs. */
  lemma HoveredSlotFirst(cfg: Config, mods: Modifiers, d: Drag)
    requires d.button == PrimaryButton && d.hovered.Some? && DragOp(cfg, mods).Some?
    ensures var cmds := OnMouseDragged(cfg, mods, d);
      |cmds| >= 1 && cmds[0] == Helper(DragOp(cfg, mods).value, d.hovered.value)
    ensures !(cfg.betterFastDragging && d.dist > SampleSpacing) ==>
      OnMouseDragged(cfg, mods, d) == [Helper(DragOp(cfg, mods).value, d.hovered.value)]
  {
  }

  /** Without a hovered slot, no command names the pointer's slot: the drag
      issues the fast-dragging pass alone, which runs regardless of hover. */
  lemma SamplingIgnoresHover(cfg: Config, mods: Modifiers, d: Drag)
    requires d.button == PrimaryButton
    ensures OnMouseDragged(cfg, mods, d) ==
      HoveredCommands(cfg, mods, d.hovered) + OnMouseDragged(cfg, mods, d.(hovered := None))
    ensures |HoveredCommands(cfg, mods, d.hovered)| <= 1
    ensures d.hovered.None? ==> HoveredCommands(cfg, mods, d.hovered) == []
  {
    var unhovered := d.(hovered := None);
    assert unhovered.dist == d.dist && unhovered.probe == d.probe;
    assert SampledCommands(cfg, mods, unhovered) == SampledCommands(cfg, mods, d);
    assert OnMouseDragged(cfg, mods, unhovered) == [] + SampledCommands(cfg, mods, d);
  }

  /** The fast-dragging pass runs only when enabled and the drag is longer
      than one spacing; otherwise at most the hovered command is issued. */
  lemma NoSamplingUnlessFast(cfg: Config, mods: Modifiers, d: Drag)
    requires !(cfg.betterFastDragging && d.dist > SampleSpacing)
    ensures |OnMouseDragged(cfg, mods, d)| <= 1
    ensures OnMouseDragged(cfg, mods, d) != [] <==>
      d.button == PrimaryButton && d.hovered.Some? && DragOp(cfg, mods).Some?
  {
  }

  /** When the fast-dragging pass runs, the commands after the hovered one
      are the selected action applied to each sampled hit, in probe order;
      no hit means no further command. */
  lemma SampledInProbeOrder(cfg: Config, mods: Modifiers, d: Drag)
    requires d.button == PrimaryButton && DragOp(cfg, mods).Some?
    requires cfg.betterFastDragging && d.dist > SampleSpacing
    ensures var cmds := OnMouseDragged(cfg, mods, d);
      var hits := Hits(d.probe, ProbeCount(d.dist));
      var first := if d.hovered.Some? then 1 else 0;
      && |cmds| == first + |hits|
      && forall k :: 0 <= k < |hits| ==>
           cmds[first + k] == Helper(DragOp(cfg, mods).value, hits[k])
  {
    var op := DragOp(cfg, mods).value;
    var hits := Hits(d.probe, ProbeCount(d.dist));
    var head := HoveredCommands(cfg, mods, d.hovered);
    assert |head| == if d.hovered.Some? then 1 else 0;
    assert OnMouseDragged(cfg, mods, d) == head + ApplyEach(op, hits);
  }

  /** `idx` lists, in strictly increasing order, exactly the indices below
      `n` whose probe found a slot, and `hits` holds those slots in the same
      order. */
  ghost predicate Enumerates(probe: nat -> Option<Slot>, n: nat, idx: seq<nat>, hits: seq<Slot>) {
    && |idx| == |hits|
    && (forall k :: 0 <= k < |idx| ==> idx[k] < n && probe(idx[k]) == Some(hits[k]))
    && (forall k, l :: 0 <= k < l < |idx| ==> idx[k] < idx[l])
    && (forall i :: 0 <= i < n && probe(i).Some? ==> i in idx)
  }

  /** A probe that finds a slot extends the enumeration by its index. */
  lemma EnumeratesHit(probe: nat -> Option<Slot>, n: nat, idx: seq<nat>, hits: seq<Slot>, s: Slot)
    requires Enumerates(probe, n, idx, hits) && probe(n) == Some(s)
    ensures Enumerates(probe, n + 1, idx + [n], hits + [s])
  {
    var idx', hits' := idx + [n], hits + [s];
    forall k | 0 <= k < |idx'|
      ensures idx'[k] < n + 1 && probe(idx'[k]) == Some(hits'[k])
    {
      if k < |idx| {
        assert idx'[k] == idx[k] && hits'[k] == hits[k];
      }
    }
    forall i | 0 <= i < n + 1 && probe(i).Some?
      ensures i in idx'
    {
      if i < n {
        assert i in idx;
      } else {
        assert idx'[|idx|] == i;
      }
    }
  }

  /** A probe that misses leaves the enumeration as it is. */
  lemma EnumeratesMiss(probe: nat -> Option<Slot>, n: nat, idx: seq<nat>, hits: seq<Slot>)
    requires Enumerates(probe, n, idx, hits) && probe(n).None?
    ensures Enumerates(probe, n + 1, idx, hits)
  {
    forall i | 0 <= i < n + 1 && probe(i).Some?
      ensures i in idx
    {
      assert i < n;
    }
  }

  /** The hits enumerate the probes that found a slot: there is a strictly
      increasing sequence of probe indices, covering every successful probe,
      whose slots are the hits in order. */
  lemma {:induction false} HitIndices(probe: nat -> Option<Slot>, n: nat) returns (idx: seq<nat>)
    ensures Enumerates(probe, n, idx, Hits(probe, n))
  {
    if n == 0 {
      idx := [];
    } else {
      var earlier := HitIndices(probe, n - 1);
      var prior := Hits(probe, n - 1);
      match probe(n - 1)
      case Some(s) =>
        EnumeratesHit(probe, n - 1, earlier, prior, s);
        idx := earlier + [n - 1];
      case None =>
        EnumeratesMiss(probe, n - 1, earlier, prior);
        idx := earlier;
    }
  }
}
