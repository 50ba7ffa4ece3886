/** The slot example's check box: a left click flips a slot holding a bool
    and recolours it. */
module SlotToggleExample {
  import opened Values
  import Slots

  const SlotColor := Grey
  const SlotColorCheck := Red

  /** The value list a click leaves: the flipped first value alone, when
      the first value is a bool; None when the click changes nothing. */
  function Toggled(items: seq<Value>): (r: Option<seq<Value>>)
    ensures r.Some? <==> items != [] && items[0].Bool?
    ensures r.Some? ==> r.value == [Bool(!items[0].b)]
  {
    if items == [] || !items[0].Bool? then None else Some([Bool(!items[0].b)])
  }

  /** Two clicks restore the list, when it was a single bool. */
  lemma ToggleTwice(b: bool)
    ensures Toggled([Bool(b)]).Some?
    ensures Toggled(Toggled([Bool(b)]).value) == Some([Bool(b)])
  {
  }

  /** `onSlotClicked`. */
  method OnSlotClicked(s: Slots.Slot)
    modifies s`values, s`icon, s`labelText, s`info, s`dragged, s`color
    ensures Toggled(old(s.values.Items())).None? ==>
      s.Content() == old(s.Content()) && s.dragged == old(s.dragged) && s.color == old(s.color)
    ensures Toggled(old(s.values.Items())).Some? ==>
      s.values == Slice(Toggled(old(s.values.Items())).value)
      && s.icon == None && s.labelText == "" && s.info == "" && !s.dragged
    ensures Toggled(old(s.values.Items())).Some? ==>
      s.color == Some(if old(s.values.Items())[0].b then SlotColor else SlotColorCheck)
  {
    if |s.Values().Items()| < 1 {
      return;
    }
    var first := s.Values().Items()[0];
    if !first.Bool? {
      return;
    }
    if first.b {
      s.Clear();
      s.AddValues([Bool(false)]);
      s.SetColor(Some(SlotColor));
    } else {
      s.Clear();
      s.AddValues([Bool(true)]);
      s.SetColor(Some(SlotColorCheck));
    }
  }
}
