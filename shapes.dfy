/** The `paul_lopez::cad::Shape` base object: a name, an identifier handed
    out by a process-wide counter, and a visibility flag, all updated in
    place through `&mut self`.

    The `static mut NEXT_ID` counter is modelled by an `IdAllocator` object
    that every creation takes explicitly. */
module Shapes {

  /** The largest `u32`, the width of `NEXT_ID` and of a shape's id. */
  const U32Max: int := 0xFFFF_FFFF

  /** The `NEXT_ID` counter: the id the next shape will receive. */
  class IdAllocator {
    var next: int

    /** The counter as the program starts: `NEXT_ID = 1`. */
    constructor New()
      ensures next == 1
    {
      next := 1;
    }

    /** `next_available_id`: reads the counter without moving it. */
    function NextAvailableId(): (r: int)
      reads this
      ensures r == next
    {
      next
    }

    /** `reset_id_counter`: the counter starts over at 1. */
    method Reset()
      modifies this
      ensures next == 1
    {
      next := 1;
    }
  }

  class Shape {
    var name: string
    var id: int
    var visible: bool

    /** `Shape::new(name)`: takes the current counter value as its id and
        advances the counter by one; a new shape is visible. The `u32`
        increment must not overflow. */
    constructor New(name: string, ids: IdAllocator)
      requires 1 <= ids.next < U32Max
      modifies ids
      ensures this.name == name && id == old(ids.next) && visible
      ensures ids.next == old(ids.next) + 1
    {
      this.name := name;
      id := ids.next;
      visible := true;
      ids.next := ids.next + 1;
    }

    /** `Shape::default()`: a new shape named "Default Shape", consuming an id
        like any other. */
    constructor Default(ids: IdAllocator)
      requires 1 <= ids.next < U32Max
      modifies ids
      ensures name == "Default Shape" && id == old(ids.next) && visible
      ensures ids.next == old(ids.next) + 1
    {
      name := "Default Shape";
      id := ids.next;
      visible := true;
      ids.next := ids.next + 1;
    }

    /** `set_name`: replaces the name, leaving id and visibility. */
    method SetName(newName: string)
      modifies this
      ensures name == newName && id == old(id) && visible == old(visible)
    {
      name := newName;
    }

    /** `set_visible`: sets the flag, leaving name and id. */
    method SetVisible(v: bool)
      modifies this
      ensures visible == v && name == old(name) && id == old(id)
    {
      visible := v;
    }

    /** `show`: the shape becomes visible; nothing else changes. */
    method Show()
      modifies this
      ensures visible && name == old(name) && id == old(id)
    {
      visible := true;
    }

    /** `hide`: the shape becomes hidden; nothing else changes. */
    method Hide()
      modifies this
      ensures !visible && name == old(name) && id == old(id)
    {
      visible := false;
    }

    /** `copy_with_name`: a separate shape with the new name that keeps the
        original's id and visibility; the original is untouched and no id
        is consumed. */
    method CopyWithName(newName: string) returns (copy: Shape)
      ensures fresh(copy)
      ensures copy.name == newName && copy.id == id && copy.visible == visible
    {
      copy := new Shape.Clone(this);
      copy.SetName(newName);
    }

    /** `Clone`: a field-by-field copy. */
    constructor Clone(other: Shape)
      ensures name == other.name && id == other.id && visible == other.visible
    {
      name := other.name;
      id := other.id;
      visible := other.visible;
    }
  }

  /** After a reset, consecutive creations receive ids 1 and 2, each shape
      starts visible, and the counter then stands at 3. */
  method CreationSequence(ids: IdAllocator) returns (first: Shape, second: Shape)
    modifies ids
    ensures first.name == "Triangle" && first.id == 1 && first.visible
    ensures second.name == "Rectangle" && second.id == 2
    ensures ids.NextAvailableId() == 3
  {
    ids.Reset();
    first := new Shape.New("Triangle", ids);
    second := new Shape.New("Rectangle", ids);
  }

  /** Visibility follows the last of `hide`, `show`, `set_visible`, and a
      renamed copy keeps the original's id and visibility. */
  method VisibilityAndCopy(ids: IdAllocator) returns (s: Shape, copy: Shape)
    requires 1 <= ids.next < U32Max
    modifies ids
    ensures s.name == "Modified" && !s.visible
    ensures copy.name == "Copy Shape" && copy.id == s.id && copy.visible == s.visible
  {
    s := new Shape.New("Test Shape", ids);
    s.Hide();
    assert !s.visible;
    s.Show();
    assert s.visible;
    s.SetVisible(false);
    s.SetName("Modified");
    copy := s.CopyWithName("Copy Shape");
  }
}
