/** src/color.rs: the two colours of the pieces and squares. */
module Colors {

  datatype Color = Black | White

  /** `to_str`: the colour's name. */
  function ToStr(color: Color): (s: string)
    ensures s in {"Black", "White"}
  {
    match color
    case Black => "Black"
    case White => "White"
  }

  lemma ToStrValues()
    ensures ToStr(Black) == "Black"
    ensures ToStr(White) == "White"
  {
  }

  /** Distinct colours have distinct names. */
  lemma ToStrInjective(a: Color, b: Color)
    ensures ToStr(a) == ToStr(b) <==> a == b
  {
    if a != b {
      assert ToStr(a)[0] != ToStr(b)[0];
    }
  }
}
