/** The slot-list example's drag and drop rules, written on top of the slot
    API: left click drags a slot (and releases any other), right click drops
    the dragged slot's content into the clicked one. The program's global
    slot list is passed in. */
module SlotListExample {
  import Slots

  /** The first slot of the list in drag mode, or null. */
  function FirstDragged(slots: seq<Slots.Slot>): (r: Slots.Slot?)
    reads slots
    ensures r == null <==> forall i :: 0 <= i < |slots| ==> !slots[i].dragged
    ensures r != null ==> exists i :: 0 <= i < |slots| && slots[i] == r && r.dragged
                                      && forall j :: 0 <= j < i ==> !slots[j].dragged
    decreases |slots|
  {
    if slots == [] then null
    else if slots[0].dragged then slots[0]
    else
      var r := FirstDragged(slots[1..]);
      assert forall i :: 1 <= i < |slots| ==> slots[i] == slots[1..][i - 1];
      r
  }

  /** At most one slot of the list is in drag mode. */
  ghost predicate AtMostOneDragged(slots: seq<Slots.Slot>)
    reads slots
  {
    forall i, j :: 0 <= i < |slots| && 0 <= j < |slots| && slots[i].dragged && slots[j].dragged
      ==> slots[i] == slots[j]
  }

  /** `draggedSlot`: a search through the list in order. */
  method DraggedSlot(slots: seq<Slots.Slot>) returns (r: Slots.Slot?)
    ensures r == FirstDragged(slots)
  {
    for i := 0 to |slots|
      invariant FirstDragged(slots) == FirstDragged(slots[i..])
    {
      assert slots[i..][1..] == slots[i + 1..];
      if slots[i].dragged {
        return slots[i];
      }
    }
    return null;
  }

  /** `dragSlot`: a slot with no values is left alone; otherwise the first
      dragged slot is released and the clicked one dragged. Under the
      single-drag rule, exactly the clicked slot is dragged afterwards. */
  method DragSlot(slots: seq<Slots.Slot>, slot: Slots.Slot)
    modifies slots`dragged, slot`dragged
    ensures |old(slot.values.Items())| < 1 ==>
      slot.dragged == old(slot.dragged) && forall s :: s in slots ==> s.dragged == old(s.dragged)
    ensures |old(slot.values.Items())| >= 1 ==> slot.dragged
    ensures |old(slot.values.Items())| >= 1 ==> forall s :: s in slots && s != slot ==>
      (s.dragged <==> old(s.dragged) && s != old(FirstDragged(slots)))
    ensures |old(slot.values.Items())| >= 1 && old(AtMostOneDragged(slots)) ==>
      forall s :: s in slots ==> (s.dragged <==> s == slot)
  {
    if |slot.values.Items()| < 1 {
      return;
    }
    ghost var first := FirstDragged(slots);
    var dragged := DraggedSlot(slots);
    if dragged != null {
      dragged.Drag(false);
    }
    slot.Drag(true);
    assert forall s :: s in slots && s != slot && s != first ==> s.dragged == old(s.dragged);
  }

  /** `dropSlot`: with no dragged slot nothing happens; otherwise the
      clicked slot and the dragged one exchange their content. No drag flag
      changes, so the dragged slot stays dragged with its new content. */
  method DropSlot(slots: seq<Slots.Slot>, slot: Slots.Slot)
    modifies slots`values, slots`icon, slots`labelText, slots`info
    modifies slot`values, slot`icon, slot`labelText, slot`info
    ensures old(FirstDragged(slots)) == null ==>
      slot.Content() == old(slot.Content()) && forall s :: s in slots ==> s.Content() == old(s.Content())
    ensures var d := old(FirstDragged(slots));
      d != null ==> slot.Content() == old(d.Content()) && d.Content() == old(slot.Content())
    ensures var d := old(FirstDragged(slots));
      forall s :: s in slots && s != slot && s != d ==> s.Content() == old(s.Content())
  {
    var dragged := DraggedSlot(slots);
    if dragged != null {
      Slots.SlotSwitch(slot, dragged);
    }
  }
}
