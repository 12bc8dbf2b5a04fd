/** src/rank.rs: one rank (row) of the board, eight optional pieces in file
    order, and the starting layout of each rank. */
module Ranks {

  import opened Wrappers
  import opened Colors
  import opened PieceTypes
  import opened Pieces
  import FileIndices

  /** The Rust struct `Rank`. */
  datatype RankRecord = RankRecord(pieces: seq<Option<Piece>>)

  /** A rank always has eight slots: `Rank::new` asserts it. */
  type Rank = rank: RankRecord | |rank.pieces| == 8 witness RankRecord(seq(8, _ => None))

  /** `Rank::new`: `None` stands for the failed assertion. */
  function NewRank(pieces: seq<Option<Piece>>): (r: Option<Rank>)
    ensures r.Some? <==> |pieces| == 8
    ensures r.Some? ==> Get(r.value) == pieces
  {
    if |pieces| == 8 then Some(RankRecord(pieces)) else None
  }

  /** `Rank::get`: the eight slots. */
  function Get(rank: Rank): (pieces: seq<Option<Piece>>)
    ensures |pieces| == 8
    ensures pieces == rank.pieces
  {
    rank.pieces
  }

  /** `get_piece`: the slot of the given file; never out of bounds, since a
      file index is at most 7 and a rank has eight slots. */
  function GetPiece(rank: Rank, fileIndex: FileIndices.FileIndex): (piece: Option<Piece>)
    ensures piece == Get(rank)[FileIndices.Get(fileIndex)]
  {
    rank.pieces[FileIndices.Get(fileIndex)]
  }

  /** A rank made from eight slots gives back slot `f` for file `f`. */
  lemma GetPieceAfterNew(pieces: seq<Option<Piece>>, fileIndex: FileIndices.FileIndex)
    requires |pieces| == 8
    ensures NewRank(pieces).Some?
    ensures GetPiece(NewRank(pieces).value, fileIndex) == pieces[fileIndex]
  {
  }

  /** `create_pieces_from_rank_index`: the starting contents of a rank. */
  function CreatePiecesFromRankIndex(rankIndex: nat): (pieces: seq<Option<Piece>>)
    requires rankIndex <= 7
    ensures |pieces| == 8
  {
    match rankIndex
    case 0 => [
      Some(CreateWhiteRook()),
      Some(CreateWhiteKnight()),
      Some(CreateWhiteBishop()),
      Some(CreateWhiteQueen()),
      Some(CreateWhiteKing()),
      Some(CreateWhiteBishop()),
      Some(CreateWhiteKnight()),
      Some(CreateWhiteRook())
    ]
    case 1 => seq(8, _ => Some(CreateWhitePawn()))
    case 6 => seq(8, _ => Some(CreateBlackPawn()))
    case 7 => [
      Some(CreateBlackRook()),
      Some(CreateBlackKnight()),
      Some(CreateBlackBishop()),
      Some(CreateBlackQueen()),
      Some(CreateBlackKing()),
      Some(CreateBlackBishop()),
      Some(CreateBlackKnight()),
      Some(CreateBlackRook())
    ]
    case _ => seq(8, _ => None)
  }

  /** The back-rank piece of a file, described by the board's mirror symmetry:
      rooks in the corners, then knights, then bishops, the queen on the d file
      and the king on the e file. */
  function BackRankType(file: nat): PieceType
    requires file <= 7
  {
    if file == 0 || file == 7 then Rook
    else if file == 1 || file == 6 then Knight
    else if file == 2 || file == 5 then Bishop
    else if file == 3 then Queen
    else King
  }

  /** The standard starting position, square by square. */
  function StartingPiece(file: nat, rankIndex: nat): Option<Piece>
    requires file <= 7 && rankIndex <= 7
  {
    if rankIndex == 0 then Some(Piece(White, BackRankType(file)))
    else if rankIndex == 1 then Some(Piece(White, Pawn))
    else if rankIndex == 6 then Some(Piece(Black, Pawn))
    else if rankIndex == 7 then Some(Piece(Black, BackRankType(file)))
    else None
  }

  /** Every rank index yields the standard starting position: white back rank
      and pawns on indices 0 and 1, black pawns and back rank on 6 and 7,
      nothing on 2 to 5. */
  lemma CreatePiecesIsStartingPosition(rankIndex: nat, file: nat)
    requires rankIndex <= 7 && file <= 7
    ensures CreatePiecesFromRankIndex(rankIndex)[file] == StartingPiece(file, rankIndex)
  {
  }

  /** The black side mirrors the white side: rank index 7 - i holds the pieces
      of rank index i in the other colour. */
  lemma StartingPositionIsMirrored(rankIndex: nat, file: nat)
    requires rankIndex <= 7 && file <= 7
    ensures var here, there := CreatePiecesFromRankIndex(rankIndex)[file],
                               CreatePiecesFromRankIndex(7 - rankIndex)[file];
            here.Some? <==> there.Some?
    ensures var here, there := CreatePiecesFromRankIndex(rankIndex)[file],
                               CreatePiecesFromRankIndex(7 - rankIndex)[file];
            here.Some? ==> here.value.pieceType == there.value.pieceType
                           && here.value.color != there.value.color
  {
    CreatePiecesIsStartingPosition(rankIndex, file);
    CreatePiecesIsStartingPosition(7 - rankIndex, file);
  }

  lemma CreatePiecesExamples()
    ensures CreatePiecesFromRankIndex(0) == [
      Some(Piece(White, Rook)), Some(Piece(White, Knight)), Some(Piece(White, Bishop)),
      Some(Piece(White, Queen)), Some(Piece(White, King)), Some(Piece(White, Bishop)),
      Some(Piece(White, Knight)), Some(Piece(White, Rook))]
    ensures CreatePiecesFromRankIndex(1) == seq(8, _ => Some(Piece(White, Pawn)))
    ensures CreatePiecesFromRankIndex(6) == seq(8, _ => Some(Piece(Black, Pawn)))
    ensures CreatePiecesFromRankIndex(3)[0] == None
  {
  }

  /** `create_starting_ranks`: rank `i` is built from rank index `i`. */
  function CreateStartingRanks(): (ranks: seq<Rank>)
    ensures |ranks| == 8
    ensures forall i :: 0 <= i < |ranks| ==> Get(ranks[i]) == CreatePiecesFromRankIndex(i)
  {
    [
      NewRank(CreatePiecesFromRankIndex(0)).value,
      NewRank(CreatePiecesFromRankIndex(1)).value,
      NewRank(CreatePiecesFromRankIndex(2)).value,
      NewRank(CreatePiecesFromRankIndex(3)).value,
      NewRank(CreatePiecesFromRankIndex(4)).value,
      NewRank(CreatePiecesFromRankIndex(5)).value,
      NewRank(CreatePiecesFromRankIndex(6)).value,
      NewRank(CreatePiecesFromRankIndex(7)).value
    ]
  }
}
