/** src/direction.rs: the four directions in which the cursor can move. */
module Directions {

  datatype Direction = Up | Right | Down | Left

  /** `to_str`: the direction's name. */
  function ToStr(direction: Direction): (s: string)
    ensures s in {"Up", "Right", "Down", "Left"}
  {
    match direction
    case Up => "Up"
    case Right => "Right"
    case Down => "Down"
    case Left => "Left"
  }

  lemma ToStrValues()
    ensures ToStr(Up) == "Up" && ToStr(Down) == "Down"
    ensures ToStr(Right) == "Right" && ToStr(Left) == "Left"
  {
  }

  /** Distinct directions have distinct names. */
  lemma ToStrInjective(a: Direction, b: Direction)
    ensures ToStr(a) == ToStr(b) <==> a == b
  {
    if a != b {
      assert ToStr(a)[0] != ToStr(b)[0];
    }
  }
}
