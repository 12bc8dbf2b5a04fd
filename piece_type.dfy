/** src/piece_type.rs: the six kinds of chess piece. */
module PieceTypes {

  datatype PieceType = Bishop | King | Knight | Pawn | Queen | Rook

  /** `to_str`: the piece type's name. */
  function ToStr(pieceType: PieceType): (s: string)
    ensures s in {"Bishop", "King", "Knight", "Pawn", "Queen", "Rook"}
  {
    match pieceType
    case Bishop => "Bishop"
    case King => "King"
    case Knight => "Knight"
    case Pawn => "Pawn"
    case Queen => "Queen"
    case Rook => "Rook"
  }

  lemma ToStrValues()
    ensures ToStr(Bishop) == "Bishop" && ToStr(King) == "King" && ToStr(Knight) == "Knight"
    ensures ToStr(Pawn) == "Pawn" && ToStr(Queen) == "Queen" && ToStr(Rook) == "Rook"
  {
  }

  /** Distinct piece types have distinct names. */
  lemma ToStrInjective(a: PieceType, b: PieceType)
    ensures ToStr(a) == ToStr(b) <==> a == b
  {
    if a != b {
      assert ToStr(a)[0] != ToStr(b)[0] || ToStr(a)[1] != ToStr(b)[1];
    }
  }
}
