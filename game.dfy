/** src/game.rs: a game session, the board, the player to move and the
    selector. */
module Games {

  import opened Wrappers
  import opened Colors
  import opened PieceTypes
  import opened Pieces
  import Squares
  import FileIndices
  import Ranks
  import Boards
  import Selectors

  type Square = Squares.Square
  type FileIndex = FileIndices.FileIndex

  /** The Rust struct `Game`. None of its fields is ever reassigned; only the
      selector's own fields can change. */
  class Game {
    const board: Boards.Board
    const currentPlayer: Color
    const selector: Selectors.Selector

    /** `Game::new`, with the random starting square of the cursor passed in:
        the starting board, White to move, the cursor on that square and
        nothing selected. */
    constructor (initialCursor: Square)
      ensures GetBoard() == Boards.NewBoard()
      ensures GetCurrentPlayer() == White
      ensures fresh(GetSelector())
      ensures GetSelector().GetCursor() == Some(initialCursor)
      ensures GetSelector().GetFrom() == None && GetSelector().GetTo() == None
    {
      var s := new Selectors.Selector();
      s.SetCursor(Some(initialCursor));
      board := Boards.NewBoard();
      currentPlayer := White;
      selector := s;
    }

    /** `get_board`. */
    function GetBoard(): (b: Boards.Board)
      ensures b == board
    {
      board
    }

    /** `get_current_player`. */
    function GetCurrentPlayer(): (c: Color)
      ensures c == currentPlayer
    {
      currentPlayer
    }

    /** `get_selector`. */
    function GetSelector(): (s: Selectors.Selector)
      ensures s == selector
    {
      selector
    }
  }

  /** The free `get_invisible_squares`: the board's scan on the game's board. */
  method GetInvisibleSquares(game: Game, color: Color, coordinatFromIndices: (FileIndex, nat) -> string)
    returns (invisibleSquares: seq<Square>)
    requires Boards.CoordinatesValid(coordinatFromIndices)
    ensures invisibleSquares == Boards.InvisibleSquares(game.GetBoard(), color, coordinatFromIndices)
  {
    invisibleSquares := Boards.GetInvisibleSquares(game.GetBoard(), color, coordinatFromIndices);
  }

  /** The free `get_piece_from_indices`: the slot at the indices on the
      game's board. */
  function GetPieceFromIndices(game: Game, fileIndex: FileIndex, rankIndex: nat): (piece: Option<Piece>)
    requires rankIndex <= 7
    ensures piece == Ranks.Get(Boards.GetRanks(game.GetBoard())[rankIndex])[FileIndices.Get(fileIndex)]
  {
    Boards.GetPieceFromIndices(game.GetBoard(), fileIndex, rankIndex)
  }

  /** In a game still on its starting board every lookup gives the piece of
      the chess starting position. */
  lemma GetPieceFromIndicesOnNewGame(game: Game, fileIndex: FileIndex, rankIndex: nat)
    requires game.GetBoard() == Boards.NewBoard() && rankIndex <= 7
    ensures GetPieceFromIndices(game, fileIndex, rankIndex) == Ranks.StartingPiece(fileIndex, rankIndex)
  {
    Boards.NewBoardIsStartingPosition(fileIndex, rankIndex);
  }

  /** A new game: White moves first, the cursor is on the given square, either
      colour has sixteen hidden squares, and a1 holds a white rook. */
  method NewGameScenario(initialCursor: Square, coordinatFromIndices: (FileIndex, nat) -> string)
    returns (player: Color, hidden: seq<Square>, corner: Option<Piece>)
    requires Boards.CoordinatesValid(coordinatFromIndices)
    ensures player == White
    ensures |hidden| == 16
    ensures corner == Some(Piece(White, Rook))
  {
    var game := new Game(initialCursor);
    player := game.GetCurrentPlayer();
    hidden := GetInvisibleSquares(game, Black, coordinatFromIndices);
    Boards.InvisibleSquaresOnNewBoard(Black, coordinatFromIndices);
    corner := GetPieceFromIndices(game, 0, 0);
    GetPieceFromIndicesOnNewGame(game, 0, 0);
  }
}
