/** src/selector.rs: the user's cursor and the squares selected as the
    origin ("from") and target ("to") of a move. */
module Selectors {

  import opened Wrappers
  import Squares

  type Square = Squares.Square

  /** The Rust struct `Selector`, whose setters update it through `&mut self`. */
  class Selector {
    var cursor: Option<Square>
    var from: Option<Square>
    var to: Option<Square>

    /** `Selector::new`: nothing under the cursor, nothing selected. */
    constructor ()
      ensures GetCursor() == None && GetFrom() == None && GetTo() == None
    {
      cursor, from, to := None, None, None;
    }

    /** `get_cursor`. */
    function GetCursor(): (c: Option<Square>)
      reads this
      ensures c == cursor
    {
      cursor
    }

    /** `get_from`. */
    function GetFrom(): (f: Option<Square>)
      reads this
      ensures f == from
    {
      from
    }

    /** `get_to`. */
    function GetTo(): (t: Option<Square>)
      reads this
      ensures t == to
    {
      to
    }

    /** `set_cursor`: the cursor becomes `c`, which may be `None`; the
        selection is untouched. */
    method SetCursor(c: Option<Square>)
      modifies this
      ensures GetCursor() == c
      ensures GetFrom() == old(GetFrom()) && GetTo() == old(GetTo())
    {
      cursor := c;
    }

    /** `set_from`: only the origin changes. */
    method SetFrom(f: Option<Square>)
      modifies this
      ensures GetFrom() == f
      ensures GetCursor() == old(GetCursor()) && GetTo() == old(GetTo())
    {
      from := f;
    }

    /** `set_to`: only the target changes. */
    method SetTo(t: Option<Square>)
      modifies this
      ensures GetTo() == t
      ensures GetCursor() == old(GetCursor()) && GetFrom() == old(GetFrom())
    {
      to := t;
    }

    /** `move_cursor_up`: without a cursor nothing happens; otherwise the
        cursor moves one rank up on its file, from the top rank to the bottom
        one. The selection is untouched. */
    method MoveCursorUp()
      modifies this
      ensures old(GetCursor()).None? ==> GetCursor() == None
      ensures old(GetCursor()).Some? ==> GetCursor() == Some(Squares.GetSquareAbove(old(GetCursor()).value))
      ensures old(GetCursor()).Some? ==> GetCursor() != old(GetCursor())
      ensures GetFrom() == old(GetFrom()) && GetTo() == old(GetTo())
    {
      if cursor.Some? {
        var someCursor := cursor.value;
        cursor := Some(Squares.GetSquareAbove(someCursor));
      }
    }
  }

  /** The scenario of the tests in selector.rs: a new selector is empty; a
      cursor moves to the square above; a cleared cursor stays cleared when
      moved; the from and to squares read back what was set. */
  method SelectorScenario(square: Square)
    returns (initial: Option<Square>, moved: Option<Square>, movedCleared: Option<Square>,
             from: Option<Square>, to: Option<Square>)
    ensures initial == None
    ensures moved == Some(Squares.GetSquareAbove(square)) && moved != Some(square)
    ensures movedCleared == None
    ensures from == Some(square) && to == Some(square)
  {
    var selector := new Selector();
    initial := selector.GetCursor();
    selector.SetCursor(Some(square));
    selector.MoveCursorUp();
    moved := selector.GetCursor();
    selector.SetCursor(None);
    selector.MoveCursorUp();
    movedCleared := selector.GetCursor();
    selector.SetFrom(Some(square));
    selector.SetTo(Some(square));
    from, to := selector.GetFrom(), selector.GetTo();
  }
}
