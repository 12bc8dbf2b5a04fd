/** src/piece.rs: a chess piece, a colour and a piece type. */
module Pieces {

  import opened Colors
  import opened PieceTypes

  /** The Rust struct `Piece`; Dafny's datatype equality compares both fields,
      as the derived `PartialEq` does. */
  datatype Piece = Piece(color: Color, pieceType: PieceType)

  /** `Piece::clone`: a field-by-field copy. */
  function Clone(piece: Piece): (copy: Piece)
    ensures copy == piece
  {
    Piece(piece.color, piece.pieceType)
  }

  /** `get_color`. */
  function GetColor(piece: Piece): (color: Color)
    ensures color == piece.color
  {
    piece.color
  }

  /** `get_type`. */
  function GetType(piece: Piece): (pieceType: PieceType)
    ensures pieceType == piece.pieceType
  {
    piece.pieceType
  }

  /** The getters give back what the piece was built from. */
  lemma GettersReturnFields(color: Color, pieceType: PieceType)
    ensures GetColor(Piece(color, pieceType)) == color
    ensures GetType(Piece(color, pieceType)) == pieceType
  {
  }

  /** Two pieces are equal exactly when their colours and their types are. */
  lemma EqualIffSameFields(a: Piece, b: Piece)
    ensures a == b <==> GetColor(a) == GetColor(b) && GetType(a) == GetType(b)
  {
  }

  function CreateBlackBishop(): (piece: Piece)
    ensures GetColor(piece) == Black && GetType(piece) == Bishop
  {
    Piece(Black, Bishop)
  }

  function CreateBlackKing(): (piece: Piece)
    ensures GetColor(piece) == Black && GetType(piece) == King
  {
    Piece(Black, King)
  }

  function CreateBlackKnight(): (piece: Piece)
    ensures GetColor(piece) == Black && GetType(piece) == Knight
  {
    Piece(Black, Knight)
  }

  function CreateBlackPawn(): (piece: Piece)
    ensures GetColor(piece) == Black && GetType(piece) == Pawn
  {
    Piece(Black, Pawn)
  }

  function CreateBlackQueen(): (piece: Piece)
    ensures GetColor(piece) == Black && GetType(piece) == Queen
  {
    Piece(Black, Queen)
  }

  function CreateBlackRook(): (piece: Piece)
    ensures GetColor(piece) == Black && GetType(piece) == Rook
  {
    Piece(Black, Rook)
  }

  function CreateWhiteBishop(): (piece: Piece)
    ensures GetColor(piece) == White && GetType(piece) == Bishop
  {
    Piece(White, Bishop)
  }

  function CreateWhiteKing(): (piece: Piece)
    ensures GetColor(piece) == White && GetType(piece) == King
  {
    Piece(White, King)
  }

  function CreateWhiteKnight(): (piece: Piece)
    ensures GetColor(piece) == White && GetType(piece) == Knight
  {
    Piece(White, Knight)
  }

  function CreateWhitePawn(): (piece: Piece)
    ensures GetColor(piece) == White && GetType(piece) == Pawn
  {
    Piece(White, Pawn)
  }

  function CreateWhiteQueen(): (piece: Piece)
    ensures GetColor(piece) == White && GetType(piece) == Queen
  {
    Piece(White, Queen)
  }

  function CreateWhiteRook(): (piece: Piece)
    ensures GetColor(piece) == White && GetType(piece) == Rook
  {
    Piece(White, Rook)
  }

  /** `create_black_starting_pawns`: eight black pawns. */
  function CreateBlackStartingPawns(): (pawns: seq<Piece>)
    ensures |pawns| == 8
    ensures forall i :: 0 <= i < |pawns| ==> GetColor(pawns[i]) == Black && GetType(pawns[i]) == Pawn
  {
    seq(8, _ => CreateBlackPawn())
  }

  /** `create_white_starting_pawns`: eight white pawns. */
  function CreateWhiteStartingPawns(): (pawns: seq<Piece>)
    ensures |pawns| == 8
    ensures forall i :: 0 <= i < |pawns| ==> GetColor(pawns[i]) == White && GetType(pawns[i]) == Pawn
  {
    seq(8, _ => CreateWhitePawn())
  }
}
