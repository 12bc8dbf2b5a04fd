/** src/board.rs: the board as eight ranks, lookups on it, the colour of its
    squares and the fog-of-war scan. */
module Boards {

  import opened Wrappers
  import opened Colors
  import opened PieceTypes
  import opened Pieces
  import Squares
  import FileIndices
  import Ranks

  type Square = Squares.Square
  type FileIndex = FileIndices.FileIndex
  type Rank = Ranks.Rank

  /** The Rust struct `Board`: its ranks, index 0 being the first rank. */
  datatype BoardRecord = BoardRecord(ranks: seq<Rank>)

  /** The field is private and `Board::new` is the only way to build a board,
      so a board always has eight ranks. */
  type Board = board: BoardRecord | |board.ranks| == 8 witness BoardRecord(Ranks.CreateStartingRanks())

  /** `Board::new`: the eight starting ranks. */
  function NewBoard(): (board: Board)
    ensures |GetRanks(board)| == 8
    ensures forall i :: 0 <= i < 8 ==> Ranks.Get(GetRanks(board)[i]) == Ranks.CreatePiecesFromRankIndex(i)
  {
    BoardRecord(Ranks.CreateStartingRanks())
  }

  /** `get_ranks`. */
  function GetRanks(board: Board): (ranks: seq<Rank>)
    ensures ranks == board.ranks
  {
    board.ranks
  }

  /** `get_piece_from_indices`: slot `fileIndex` of rank `rankIndex`;
      board.rs panics on a rank index past the last rank. */
  function GetPieceFromIndices(board: Board, fileIndex: FileIndex, rankIndex: nat): (piece: Option<Piece>)
    requires rankIndex <= 7
    ensures piece == Ranks.Get(board.ranks[rankIndex])[FileIndices.Get(fileIndex)]
  {
    Ranks.GetPiece(board.ranks[rankIndex], fileIndex)
  }

  /** The new board holds the standard starting position on every square. */
  lemma NewBoardIsStartingPosition(fileIndex: FileIndex, rankIndex: nat)
    requires rankIndex <= 7
    ensures GetPieceFromIndices(NewBoard(), fileIndex, rankIndex) == Ranks.StartingPiece(fileIndex, rankIndex)
  {
    Ranks.CreatePiecesIsStartingPosition(rankIndex, fileIndex);
  }

  lemma NewBoardExamples()
    ensures GetPieceFromIndices(NewBoard(), 0, 0) == Some(Piece(White, Rook))
    ensures GetPieceFromIndices(NewBoard(), 1, 1) == Some(Piece(White, Pawn))
    ensures GetPieceFromIndices(NewBoard(), 7, 7) == Some(Piece(Black, Rook))
    ensures GetPieceFromIndices(NewBoard(), 4, 3) == None
  {
    NewBoardIsStartingPosition(0, 0);
    NewBoardIsStartingPosition(1, 1);
    NewBoardIsStartingPosition(7, 7);
    NewBoardIsStartingPosition(4, 3);
  }

  /** `get_square_color_from_indices`: a square is black exactly when the sum
      of its indices is even (so a1 is black). */
  function GetSquareColorFromIndices(fileIndex: FileIndex, rankIndex: nat): (color: Color)
    ensures color == Black <==> (FileIndices.Get(fileIndex) + rankIndex) % 2 == 0
  {
    var fileBit := FileIndices.Get(fileIndex) % 2;
    var rankBit := rankIndex % 2;
    var bitInt := (rankBit + fileBit) % 2;
    assert bitInt == 0 || bitInt == 1;
    var bit := bitInt == 0;
    match bit
    case false => White
    case true => Black
  }

  /** Neighbouring squares, one file or one rank apart, differ in colour. */
  lemma SquareColorAlternates(fileIndex: FileIndex, rankIndex: nat)
    ensures GetSquareColorFromIndices(fileIndex, rankIndex) != GetSquareColorFromIndices(fileIndex, rankIndex + 1)
    ensures fileIndex < 7 ==>
              GetSquareColorFromIndices(fileIndex, rankIndex) != GetSquareColorFromIndices(fileIndex + 1, rankIndex)
  {
  }

  lemma SquareColorFromIndicesExamples()
    ensures GetSquareColorFromIndices(0, 0) == Black
    ensures GetSquareColorFromIndices(0, 1) == White
    ensures GetSquareColorFromIndices(3, 0) == White
  {
  }

  /** `get_square_color_from_square`: the colour of the square's indices. */
  function GetSquareColorFromSquare(square: Square): (color: Color)
    ensures color == Black <==> (Squares.GetNthFile(square) + Squares.GetNthRank(square)) % 2 == 0
    ensures color == GetSquareColorFromIndices(Squares.GetNthFile(square), Squares.GetNthRank(square))
  {
    var fileIndex := Squares.GetNthFile(square);
    var rankIndex := Squares.GetNthRank(square);
    GetSquareColorFromIndices(fileIndex, rankIndex)
  }

  lemma SquareColorFromSquareExamples()
    ensures GetSquareColorFromSquare(Squares.SquareRecord("a1")) == Black
    ensures GetSquareColorFromSquare(Squares.SquareRecord("b1")) == White
    ensures GetSquareColorFromSquare(Squares.SquareRecord("d1")) == White
  {
  }

  /** `is_pawn`: whether the square holds a pawn of either colour. */
  function IsPawn(board: Board, square: Square): (isPawn: bool)
    ensures isPawn <==> exists color: Color ::
              GetPieceFromIndices(board, Squares.GetNthFile(square), Squares.GetNthRank(square)) == Some(Piece(color, Pawn))
  {
    var pieceOption := GetPieceFromIndices(board, Squares.GetNthFile(square), Squares.GetNthRank(square));
    match pieceOption
    case Some(piece) => GetType(piece) == Pawn
    case None => false
  }

  /** On the new board the pawns stand on rank index 1 and on rank index 6. */
  lemma IsPawnOnNewBoard(square: Square)
    ensures IsPawn(NewBoard(), square) <==> Squares.GetNthRank(square) == 1 || Squares.GetNthRank(square) == 6
  {
    NewBoardIsStartingPosition(Squares.GetNthFile(square), Squares.GetNthRank(square));
  }

  lemma IsPawnExamples()
    ensures IsPawn(NewBoard(), Squares.SquareRecord("a2"))
    ensures !IsPawn(NewBoard(), Squares.SquareRecord("a1"))
  {
    IsPawnOnNewBoard(Squares.SquareRecord("a2"));
    IsPawnOnNewBoard(Squares.SquareRecord("a1"));
  }

  // ---------------------------------------------------------------------
  // The fog-of-war scan

  /** A place on the board, by rank index and file index. */
  datatype Position = Position(rankIndex: nat, file: FileIndex)

  /** Strictly earlier in the scan order: by rank, then by file. */
  predicate Before(p: Position, q: Position) {
    p.rankIndex < q.rankIndex || (p.rankIndex == q.rankIndex && p.file < q.file)
  }

  predicate HoldsColor(slot: Option<Piece>, color: Color) {
    slot.Some? && GetColor(slot.value) == color
  }

  /** The positions, among the first `n` files of a rank, whose piece has the
      given colour, in file order. */
  function RankMatches(rank: Rank, rankIndex: nat, color: Color, n: nat): seq<Position>
    requires n <= 8
  {
    if n == 0 then []
    else RankMatches(rank, rankIndex, color, n - 1)
         + (if HoldsColor(Ranks.Get(rank)[n - 1], color) then [Position(rankIndex, n - 1)] else [])
  }

  /** The positions of all pieces of the given colour, rank by rank and file by
      file, in the order the scan visits them. */
  function ScanPositions(ranks: seq<Rank>, color: Color): seq<Position> {
    if ranks == [] then []
    else ScanPositions(ranks[..|ranks| - 1], color) + RankMatches(ranks[|ranks| - 1], |ranks| - 1, color, 8)
  }

  /** What `create_coordinat_from_indices` must give for the scan not to
      panic: a valid coordinate for each file at rank index 1. */
  predicate CoordinatesValid(coordinatFromIndices: (FileIndex, nat) -> string) {
    forall f: FileIndex :: Squares.IsCoordinat(coordinatFromIndices(f, 1))
  }

  /** The square the scan records for a piece on file `f`: board.rs passes
      rank index 1 whatever the piece's rank. */
  function ScanSquare(coordinatFromIndices: (FileIndex, nat) -> string, f: FileIndex): Square
    requires CoordinatesValid(coordinatFromIndices)
  {
    Squares.NewSquare(coordinatFromIndices(f, 1)).value
  }

  /** The result of `get_invisible_squares`: one square per position of the
      scan. */
  function InvisibleSquares(board: Board, color: Color, coordinatFromIndices: (FileIndex, nat) -> string): seq<Square>
    requires CoordinatesValid(coordinatFromIndices)
  {
    var positions := ScanPositions(board.ranks, color);
    seq(|positions|, k requires 0 <= k < |positions| => ScanSquare(coordinatFromIndices, positions[k].file))
  }

  /** `get_invisible_squares`: for every rank and every file whose piece has
      the given colour, push the square made from that file and rank index 1. */
  method GetInvisibleSquares(board: Board, color: Color, coordinatFromIndices: (FileIndex, nat) -> string)
    returns (invisibleSquares: seq<Square>)
    requires CoordinatesValid(coordinatFromIndices)
    ensures invisibleSquares == InvisibleSquares(board, color, coordinatFromIndices)
  {
    invisibleSquares := [];
    ghost var visited: seq<Position> := [];
    var ranks := GetRanks(board);
    var i := 0;
    while i < |ranks|
      invariant 0 <= i <= |ranks|
      invariant visited == ScanPositions(ranks[..i], color)
      invariant |invisibleSquares| == |visited|
      invariant forall k :: 0 <= k < |visited| ==>
                  invisibleSquares[k] == ScanSquare(coordinatFromIndices, visited[k].file)
    {
      var rank := ranks[i];
      var fileIndices := FileIndices.GetAllFileIndices();
      var j := 0;
      while j < |fileIndices|
        invariant 0 <= j <= |fileIndices|
        invariant visited == ScanPositions(ranks[..i], color) + RankMatches(rank, i, color, j)
        invariant |invisibleSquares| == |visited|
        invariant forall k :: 0 <= k < |visited| ==>
                    invisibleSquares[k] == ScanSquare(coordinatFromIndices, visited[k].file)
      {
        var fileIndex := fileIndices[j];
        var pieceOption := Ranks.GetPiece(rank, fileIndex);
        if pieceOption.Some? && GetColor(pieceOption.value) == color {
          var square := Squares.NewSquare(coordinatFromIndices(fileIndex, 1));
          invisibleSquares := invisibleSquares + [square.value];
          visited := visited + [Position(i, fileIndex)];
        }
        j := j + 1;
      }
      assert ranks[..i + 1][..i] == ranks[..i];
      i := i + 1;
    }
    assert ranks[..i] == ranks;
  }

  /** Every listed position lies on the board and holds a piece of the colour. */
  predicate Sound(ranks: seq<Rank>, color: Color, ps: seq<Position>) {
    forall k :: 0 <= k < |ps| ==> ps[k].rankIndex < |ranks| && HoldsColor(SlotAt(ranks, ps[k]), color)
  }

  /** Every piece of the colour on the board is listed. */
  predicate Complete(ranks: seq<Rank>, color: Color, ps: seq<Position>) {
    forall r: nat, f: FileIndex :: r < |ranks| && HoldsColor(SlotAt(ranks, Position(r, f)), color) ==>
      Position(r, f) in ps
  }

  /** The positions come strictly in scan order, so none is listed twice. */
  predicate Ordered(ps: seq<Position>) {
    forall k, l :: 0 <= k < l < |ps| ==> Before(ps[k], ps[l])
  }

  /** All positions lie on one rank, among its first `n` files. */
  predicate AllOnRank(ps: seq<Position>, rankIndex: nat, n: nat) {
    forall k :: 0 <= k < |ps| ==> ps[k].rankIndex == rankIndex && ps[k].file < n
  }

  function SlotAt(ranks: seq<Rank>, p: Position): Option<Piece>
    requires p.rankIndex < |ranks|
  {
    Ranks.Get(ranks[p.rankIndex])[p.file]
  }

  /** The matches within one rank are its positions holding the colour, all
      on that rank, among the first `n` files, in strictly increasing file order. */
  lemma {:induction false} RankMatchesCorrect(ranks: seq<Rank>, rankIndex: nat, color: Color, n: nat)
    requires rankIndex < |ranks| && n <= 8
    ensures AllOnRank(RankMatches(ranks[rankIndex], rankIndex, color, n), rankIndex, n)
    ensures Sound(ranks, color, RankMatches(ranks[rankIndex], rankIndex, color, n))
    ensures var m := RankMatches(ranks[rankIndex], rankIndex, color, n);
            forall f: FileIndex :: f < n && HoldsColor(SlotAt(ranks, Position(rankIndex, f)), color) ==>
              Position(rankIndex, f) in m
    ensures Ordered(RankMatches(ranks[rankIndex], rankIndex, color, n))
  {
    if n > 0 {
      RankMatchesCorrect(ranks, rankIndex, color, n - 1);
    }
  }

  /** The scan is sound, complete and ordered. */
  lemma {:induction false} ScanPositionsCorrect(ranks: seq<Rank>, color: Color)
    ensures Sound(ranks, color, ScanPositions(ranks, color))
    ensures Complete(ranks, color, ScanPositions(ranks, color))
    ensures Ordered(ScanPositions(ranks, color))
  {
    if ranks != [] {
      var last := |ranks| - 1;
      var init := ranks[..last];
      ScanPositionsCorrect(init, color);
      RankMatchesCorrect(ranks, last, color, 8);
      var ps: seq<Position> := ScanPositions(init, color);
      var m: seq<Position> := RankMatches(ranks[last], last, color, 8);
      assert ScanPositions(ranks, color) == ps + m;
      forall k | 0 <= k < |ps|
        ensures ps[k].rankIndex < last && SlotAt(ranks, ps[k]) == SlotAt(init, ps[k])
      {
        assert init[ps[k].rankIndex] == ranks[ps[k].rankIndex];
      }
      assert Sound(ranks, color, ps + m) by {
        forall k | 0 <= k < |ps + m|
          ensures (ps + m)[k].rankIndex < |ranks| && HoldsColor(SlotAt(ranks, (ps + m)[k]), color)
        {
          if k < |ps| {
            assert (ps + m)[k] == ps[k];
            assert ps[k].rankIndex < last;
            assert HoldsColor(SlotAt(init, ps[k]), color);
          } else {
            assert (ps + m)[k] == m[k - |ps|];
            assert m[k - |ps|].rankIndex == last;
            assert HoldsColor(SlotAt(ranks, m[k - |ps|]), color);
          }
        }
      }
      assert Ordered(ps + m) by {
        forall k, l | 0 <= k < l < |ps + m|
          ensures Before((ps + m)[k], (ps + m)[l])
        {
          if l < |ps| {
            assert (ps + m)[k] == ps[k] && (ps + m)[l] == ps[l];
          } else if k < |ps| {
            assert (ps + m)[k] == ps[k] && (ps + m)[l] == m[l - |ps|];
          } else {
            assert (ps + m)[k] == m[k - |ps|] && (ps + m)[l] == m[l - |ps|];
          }
        }
      }
      assert Complete(ranks, color, ps + m) by {
        forall r: nat, f: FileIndex | r < |ranks| && HoldsColor(SlotAt(ranks, Position(r, f)), color)
          ensures Position(r, f) in ps + m
        {
          if r < last {
            assert init[r] == ranks[r];
            assert SlotAt(init, Position(r, f)) == SlotAt(ranks, Position(r, f));
            assert Position(r, f) in ps;
          } else {
            assert Position(r, f) in m;
          }
        }
      }
    }
  }

  /** Each piece of the colour yields exactly one square, made from its file
      with rank index 1, and the squares come in the scan's order. */
  lemma InvisibleSquaresCorrect(board: Board, color: Color, coordinatFromIndices: (FileIndex, nat) -> string)
    requires CoordinatesValid(coordinatFromIndices)
    ensures var ps, squares := ScanPositions(board.ranks, color), InvisibleSquares(board, color, coordinatFromIndices);
            && |squares| == |ps|
            && (forall k :: 0 <= k < |ps| ==> squares[k] == ScanSquare(coordinatFromIndices, ps[k].file))
            && (forall k :: 0 <= k < |ps| ==>
                  ps[k].rankIndex < 8
                  && HoldsColor(GetPieceFromIndices(board, ps[k].file, ps[k].rankIndex), color))
            && (forall r: nat, f: FileIndex ::
                  r < 8 && HoldsColor(GetPieceFromIndices(board, f, r), color) ==> Position(r, f) in ps)
            && Ordered(ps)
  {
    ScanPositionsCorrect(board.ranks, color);
    var ps := ScanPositions(board.ranks, color);
    forall r: nat, f: FileIndex | r < 8 && HoldsColor(GetPieceFromIndices(board, f, r), color)
      ensures Position(r, f) in ps
    {
      assert SlotAt(board.ranks, Position(r, f)) == GetPieceFromIndices(board, f, r);
    }
  }

  /** The positions of the first `n` files of one rank. */
  function RowPositions(rankIndex: nat, n: nat): (row: seq<Position>)
    requires n <= 8
    ensures |row| == n
    ensures forall f :: 0 <= f < n ==> row[f] == Position(rankIndex, f)
  {
    seq(n, f requires 0 <= f < n => Position(rankIndex, f))
  }

  lemma {:induction false} RankMatchesFull(rank: Rank, rankIndex: nat, color: Color, n: nat)
    requires n <= 8
    requires forall f :: 0 <= f < 8 ==> HoldsColor(Ranks.Get(rank)[f], color)
    ensures RankMatches(rank, rankIndex, color, n) == RowPositions(rankIndex, n)
  {
    if n > 0 {
      RankMatchesFull(rank, rankIndex, color, n - 1);
      assert RowPositions(rankIndex, n) == RowPositions(rankIndex, n - 1) + [Position(rankIndex, n - 1)];
    }
  }

  lemma {:induction false} RankMatchesNone(rank: Rank, rankIndex: nat, color: Color, n: nat)
    requires n <= 8
    requires forall f :: 0 <= f < 8 ==> !HoldsColor(Ranks.Get(rank)[f], color)
    ensures RankMatches(rank, rankIndex, color, n) == []
  {
    if n > 0 {
      RankMatchesNone(rank, rankIndex, color, n - 1);
    }
  }

  /** One rank laid out as in the starting position matches the colour on
      every file or on none. */
  lemma StartingRankMatches(rank: Rank, rankIndex: nat, color: Color)
    requires rankIndex <= 7
    requires forall f :: 0 <= f < 8 ==> Ranks.Get(rank)[f] == Ranks.StartingPiece(f, rankIndex)
    ensures RankMatches(rank, rankIndex, color, 8)
            == if (color == White && rankIndex <= 1) || (color == Black && rankIndex >= 6)
               then RowPositions(rankIndex, 8) else []
  {
    if (color == White && rankIndex <= 1) || (color == Black && rankIndex >= 6) {
      RankMatchesFull(rank, rankIndex, color, 8);
    } else {
      RankMatchesNone(rank, rankIndex, color, 8);
    }
  }

  lemma FirstTwoOfEight(m: seq<seq<Position>>)
    requires |m| == 8
    requires forall i :: 2 <= i < 8 ==> m[i] == []
    ensures ScanPositionsOf(m, 8) == m[0] + m[1]
  {
    ScanPositionsOfEmptyTail(m, 2, 8);
    assert ScanPositionsOf(m, 1) == [] + m[0] == m[0];
  }

  lemma LastTwoOfEight(m: seq<seq<Position>>)
    requires |m| == 8
    requires forall i :: 0 <= i < 6 ==> m[i] == []
    ensures ScanPositionsOf(m, 8) == m[6] + m[7]
  {
    ScanPositionsOfEmptyTail(m, 0, 6);
    assert ScanPositionsOf(m, 7) == [] + m[6] == m[6];
  }

  /** On any eight ranks laid out as the starting position the scan finds
      both ranks of the colour, in order. */
  lemma ScanPositionsOfStartingLayout(ranks: seq<Rank>, color: Color)
    requires |ranks| == 8
    requires forall i, f :: 0 <= i < 8 && 0 <= f < 8 ==> Ranks.Get(ranks[i])[f] == Ranks.StartingPiece(f, i)
    ensures ScanPositions(ranks, color)
            == if color == White then RowPositions(0, 8) + RowPositions(1, 8)
               else RowPositions(6, 8) + RowPositions(7, 8)
  {
    var m := seq(8, i requires 0 <= i < 8 => RankMatches(ranks[i], i, color, 8));
    forall i | 0 <= i < 8
      ensures m[i] == if (color == White && i <= 1) || (color == Black && i >= 6) then RowPositions(i, 8) else []
    {
      StartingRankMatches(ranks[i], i, color);
    }
    ScanPositionsPrefix(ranks, m, color, 8);
    assert ranks[..8] == ranks;
    if color == White {
      FirstTwoOfEight(m);
    } else {
      LastTwoOfEight(m);
    }
  }

  /** On the new board the scan finds both ranks of the colour, sixteen
      positions. */
  lemma ScanPositionsOnNewBoard(color: Color)
    ensures ScanPositions(NewBoard().ranks, color)
            == if color == White then RowPositions(0, 8) + RowPositions(1, 8)
               else RowPositions(6, 8) + RowPositions(7, 8)
  {
    var ranks := NewBoard().ranks;
    forall i, f | 0 <= i < 8 && 0 <= f < 8
      ensures Ranks.Get(ranks[i])[f] == Ranks.StartingPiece(f, i)
    {
      NewBoardIsStartingPosition(f, i);
    }
    ScanPositionsOfStartingLayout(ranks, color);
  }

  /** The concatenation of the first `n` per-rank match lists. */
  function ScanPositionsOf(m: seq<seq<Position>>, n: nat): seq<Position>
    requires n <= |m|
  {
    if n == 0 then [] else ScanPositionsOf(m, n - 1) + m[n - 1]
  }

  lemma {:induction false} ScanPositionsOfEmptyTail(m: seq<seq<Position>>, lo: nat, n: nat)
    requires lo <= n <= |m|
    requires forall i :: lo <= i < n ==> m[i] == []
    ensures ScanPositionsOf(m, n) == ScanPositionsOf(m, lo)
  {
    if n > lo {
      ScanPositionsOfEmptyTail(m, lo, n - 1);
    }
  }

  lemma {:induction false} ScanPositionsPrefix(ranks: seq<Rank>, m: seq<seq<Position>>, color: Color, n: nat)
    requires n <= |ranks| == |m|
    requires forall i :: 0 <= i < |ranks| ==> m[i] == RankMatches(ranks[i], i, color, 8)
    ensures ScanPositions(ranks[..n], color) == ScanPositionsOf(m, n)
  {
    if n > 0 {
      ScanPositionsPrefix(ranks, m, color, n - 1);
      assert ranks[..n][..n - 1] == ranks[..n - 1];
      assert ranks[..n][n - 1] == ranks[n - 1];
    }
  }

  /** On the new board either colour yields sixteen squares, the eight files
      at rank index 1 twice over; since the rank index is fixed, both colours
      get the very same squares. */
  lemma InvisibleSquaresOnNewBoard(color: Color, coordinatFromIndices: (FileIndex, nat) -> string)
    requires CoordinatesValid(coordinatFromIndices)
    ensures var squares := InvisibleSquares(NewBoard(), color, coordinatFromIndices);
            |squares| == 16
            && forall k :: 0 <= k < 16 ==> squares[k] == ScanSquare(coordinatFromIndices, k % 8)
    ensures InvisibleSquares(NewBoard(), Black, coordinatFromIndices)
            == InvisibleSquares(NewBoard(), White, coordinatFromIndices)
  {
    ScanPositionsOnNewBoard(White);
    ScanPositionsOnNewBoard(Black);
    var w, b := InvisibleSquares(NewBoard(), White, coordinatFromIndices),
                InvisibleSquares(NewBoard(), Black, coordinatFromIndices);
    forall k | 0 <= k < 16
      ensures w[k] == ScanSquare(coordinatFromIndices, k % 8)
      ensures b[k] == ScanSquare(coordinatFromIndices, k % 8)
    {
      TwoRowsFile(0, 1, k);
      TwoRowsFile(6, 7, k);
    }
    if color == White {
      assert |w| == 16;
    } else {
      assert |b| == 16;
    }
  }

  lemma TwoRowsFile(first: nat, second: nat, k: nat)
    requires k < 16
    ensures (RowPositions(first, 8) + RowPositions(second, 8))[k].file == k % 8
  {
    if k >= 8 {
      assert (RowPositions(first, 8) + RowPositions(second, 8))[k] == RowPositions(second, 8)[k - 8];
    }
  }
}
