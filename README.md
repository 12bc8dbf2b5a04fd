# Search and Destroy Chess 2 — a Dafny model of the game core

Search and Destroy Chess is chess under fog of war. Each player sees only part
of the board. This project models the pieces of the game that do not depend
on a screen:

- squares named by algebraic coordinates (`"a1"` … `"h8"`);
- file indices 0..7, the six piece types and the two colours;
- pieces, and ranks of eight optional pieces;
- the board in its starting layout, with its square colours and its pawn test;
- the scan that lists the squares occupied by one colour's pieces
  (`get_invisible_squares`);
- the selector, which holds a cursor and a from/to pair of squares;
- the game, which ties a board, the player to move and a selector together.

It also models the arrow directions and the 32-bit `is_even` helper.

How the Rust code maps to Dafny:

- Value types (`Square`, `FileIndex`, `Color`, `PieceType`, `Piece`, `Rank`,
  `Board`, `Direction`) are datatypes. Subset types carry the invariants that
  the Rust constructors enforce by panicking:
  - a square always holds a valid coordinate;
  - a file index is at most 7;
  - a rank has exactly eight slots;
  - a board has exactly eight ranks.
- The constructors that can panic return `Result` (`Square::new`) or
  `Option` (`FileIndex::new`, `Rank::new`). Their contracts state exactly
  which inputs succeed.
- `Selector`, whose setters write through `&mut self`, is a class with
  mutable fields. `Game` is a class with constant fields.
- The board scan in `get_invisible_squares` is two nested loops that push
  onto a vector. It is modelled as a method with two `while` loops. The
  method is proved equal to a specification function. Separate lemmas prove
  that this function lists exactly the slots holding the colour, each once,
  in rank-then-file order.

Behaviour of the code that the model keeps:

- The scan covers every rank, including the first.
- The scan builds every square from the literal rank 1 (src/board.rs:77), so
  on the starting board both colours get the same sixteen squares.
- The cursor is optional (src/selector.rs:4). `Game::new` sets it, but a
  selector can hold no cursor, and moving an absent cursor does nothing.

## Model

| member | source | states |
|---|---|---|
| Parity.TruncatingRem | src/is_even.rs:2 | Rust's `%` on `i32`: a remainder of the division (the dividend is the divisor times some quotient plus it) that truncates toward zero, so it has the sign of the dividend and is smaller in magnitude than the divisor |
| Parity.IsEven | src/is_even.rs:1-3 | `is_even` holds exactly for the values that are multiples of two, negative values included |
| Parity.IsEvenAlternates | src/is_even.rs:1-3 | of two consecutive `i32` values exactly one is even |
| Parity.IsEvenExamples | src/is_even.rs:10-13 | 1 and -3 are odd; 2 and -4 are even |
| Colors.ToStr | src/color.rs:9-14 | the name of a colour is "Black" or "White" |
| Colors.ToStrValues | src/color.rs:21-30 | Black is named "Black" and White "White" |
| Colors.ToStrInjective | src/color.rs:9-14 | two colours have the same name exactly when they are the same colour |
| PieceTypes.ToStr | src/piece_type.rs:38-47 | the name of a piece type is one of the six type names |
| PieceTypes.ToStrValues | src/piece_type.rs:69-97 | each of the six types has its own capitalised name |
| PieceTypes.ToStrInjective | src/piece_type.rs:38-47 | two piece types have the same name exactly when they are the same type |
| Directions.ToStr | src/direction.rs:31-38 | the name of a direction is one of "Up", "Right", "Down", "Left" |
| Directions.ToStrValues | src/direction.rs:45-50 | each direction has its own name |
| Directions.ToStrInjective | src/direction.rs:31-38 | two directions have the same name exactly when they are the same direction |
| Pieces.Clone | src/piece.rs:22-27 | a clone equals the original piece |
| Pieces.GetColor | src/piece.rs:37-39 | returns the colour the piece was made with |
| Pieces.GetType | src/piece.rs:49-51 | returns the type the piece was made with |
| Pieces.GettersReturnFields | src/piece.rs:330-350 | a piece built from a colour and a type gives those back through its getters |
| Pieces.EqualIffSameFields | src/piece.rs:5-9 | two pieces are equal exactly when their colours and their types are |
| Pieces.CreateBlackBishop | src/piece.rs:67-72 | makes a black bishop |
| Pieces.CreateBlackKing | src/piece.rs:87-92 | makes a black king |
| Pieces.CreateBlackKnight | src/piece.rs:107-112 | makes a black knight |
| Pieces.CreateBlackPawn | src/piece.rs:128-133 | makes a black pawn |
| Pieces.CreateBlackQueen | src/piece.rs:148-153 | makes a black queen |
| Pieces.CreateBlackRook | src/piece.rs:168-173 | makes a black rook |
| Pieces.CreateBlackStartingPawns | src/piece.rs:182-184 | eight pieces, every one a black pawn |
| Pieces.CreateWhiteBishop | src/piece.rs:199-204 | makes a white bishop |
| Pieces.CreateWhiteKing | src/piece.rs:219-224 | makes a white king |
| Pieces.CreateWhiteKnight | src/piece.rs:239-244 | makes a white knight |
| Pieces.CreateWhitePawn | src/piece.rs:259-264 | makes a white pawn |
| Pieces.CreateWhiteQueen | src/piece.rs:279-284 | makes a white queen |
| Pieces.CreateWhiteRook | src/piece.rs:298-303 | makes a white rook |
| Pieces.CreateWhiteStartingPawns | src/piece.rs:312-314 | eight pieces, every one a white pawn |
| Squares.ByteLengthOfAscii | src/square.rs:10 | an ASCII string is as many bytes long as it has characters |
| Squares.ByteLengthAtLeastLength | src/square.rs:10 | a string has at least as many bytes as characters, and more once it holds a non-ASCII character |
| Squares.NewSquare | src/square.rs:9-24 | succeeds exactly on the coordinates `[a-h][1-8]` and then keeps the string; reports the length fault exactly when the byte length is not 2 |
| Squares.NewSquareErrorsOnAscii | src/square.rs:10-20 | on ASCII input: the length fault iff not two characters; the file fault iff the first character is not a..h or the second is a line feed; the rank fault iff only the rank character is wrong |
| Squares.NewSquareRejectsNonAscii | src/square.rs:10-14 | a string holding a non-ASCII character never makes a square, and with two or more characters it fails the length check |
| Squares.NewSquareExamples | src/square.rs:105-119 | "X" fails on length, "X1" on the file, "a9" on the rank, "a\n" on the file; "a2" is a square |
| Squares.Get | src/square.rs:26-28 | returns the square's coordinate, always a valid one |
| Squares.GetAfterNew | src/square.rs:62-73 | a square made from a valid coordinate gives that coordinate back |
| Squares.NewAfterGet | src/square.rs:9-28 | making a square from the coordinate of a square gives the same square |
| Squares.GetFile | src/square.rs:30-33 | a one-letter string, the coordinate's file letter a..h |
| Squares.GetRank | src/square.rs:35-41 | a number 1..8 whose digit is the coordinate's second character |
| Squares.GetNthFile | src/square.rs:46-49 | a number 0..7, the file letter's distance from 'a' |
| Squares.GetNthRank | src/square.rs:53-55 | a number 0..7, one less than the rank |
| Squares.NthIndicesDetermineSquare | src/square.rs:44-55 | two squares are equal exactly when their nth file and nth rank are |
| Squares.AccessorExamples | src/square.rs:62-103 | the accessors on h3, b8, c4, a1, a2, b1, h1 and a8 give the expected coordinates, files, ranks and indices |
| Squares.GetSquareAbove | src/selector.rs:78-82 | the square one rank up on the same file, wrapping from the eighth rank to the first; never the square itself |
| Squares.SquareAboveWraps | src/selector.rs:79 | above d8 comes d1; above d4 comes d5 |
| FileIndices.NewFileIndex | src/file_index.rs:18-24 | succeeds exactly for indices up to 7 and keeps the index |
| FileIndices.Get | src/file_index.rs:26-28 | returns the stored index, at most 7 |
| FileIndices.SameIndexSameGet | src/file_index.rs:62-66 | two file indices made from the same number are present and read back the same |
| FileIndices.GetAllFileIndices | src/file_index.rs:40-51 | the eight file indices 0..7, in order |
| FileIndices.AllFileIndicesEnumerateOnce | src/file_index.rs:40-51 | every file index occurs in that list, and none occurs twice |
| Ranks.NewRank | src/rank.rs:26-32 | succeeds exactly for eight slots and keeps them |
| Ranks.Get | src/rank.rs:67 | the rank's eight slots |
| Ranks.GetPiece | src/rank.rs:70-72 | the slot at the file index |
| Ranks.GetPieceAfterNew | src/rank.rs:70-72 | reading a slot of a new rank gives the piece it was made with |
| Ranks.CreatePiecesFromRankIndex | src/rank.rs:74-103 | eight slots for every rank index 0..7 |
| Ranks.CreatePiecesIsStartingPosition | src/rank.rs:78-101 | every slot holds the piece of the chess starting position: back ranks R N B Q K B N R, pawns on the second and seventh ranks, empty ranks between |
| Ranks.StartingPositionIsMirrored | src/rank.rs:79-100 | rank 7-i holds the pieces of rank i with the colours swapped |
| Ranks.CreatePiecesExamples | src/rank.rs:79-101 | the first rank is the white back rank, the second white pawns, the seventh black pawns, the fourth empty |
| Ranks.CreateStartingRanks | src/rank.rs:105-116 | eight ranks, rank i holding the pieces for rank index i |
| Boards.NewBoard | src/board.rs:33-38 | eight ranks, rank i holding the pieces for rank index i |
| Boards.GetRanks | src/board.rs:64-66 | the board's ranks |
| Boards.GetPieceFromIndices | src/board.rs:52-54 | the slot at the file index on the rank at the rank index |
| Boards.NewBoardIsStartingPosition | src/board.rs:33-38 | every slot of a new board holds the piece of the chess starting position |
| Boards.NewBoardExamples | src/board.rs:177-183 | a new board has a white rook on a1, a white pawn on b2, a black rook on h8 and nothing on e4 |
| Boards.GetSquareColorFromIndices | src/board.rs:118-128 | a square is black exactly when the sum of its file and rank indices is even |
| Boards.SquareColorAlternates | src/board.rs:118-128 | neighbouring squares, one rank or one file apart, have different colours |
| Boards.SquareColorFromIndicesExamples | src/board.rs:172-175 | (0,0) is black, (0,1) is white, (3,0) is white |
| Boards.GetSquareColorFromSquare | src/board.rs:99-103 | a square is black exactly when the sum of its nth file and nth rank is even, the colour of its indices |
| Boards.SquareColorFromSquareExamples | src/board.rs:161-170 | a1 is black, b1 and d1 are white |
| Boards.IsPawn | src/board.rs:142-148 | true exactly when the square holds a pawn of either colour |
| Boards.IsPawnOnNewBoard | src/board.rs:142-148 | on a new board a square holds a pawn exactly when it is on the second or seventh rank |
| Boards.IsPawnExamples | src/board.rs:155-159 | on a new board a2 holds a pawn and a1 does not |
| Boards.GetInvisibleSquares | src/board.rs:69-85 | the nested loops over ranks and file indices return exactly the specification `InvisibleSquares` |
| Boards.RankMatchesCorrect | src/board.rs:72-81 | the scan of one rank lists exactly its slots holding the colour, each once, in file order |
| Boards.ScanPositionsCorrect | src/board.rs:71-83 | the scan of the board lists exactly the slots holding the colour, each once, rank by rank, then file by file |
| Boards.InvisibleSquaresCorrect | src/board.rs:69-85 | one square per piece of the colour, in scan order, each made from that piece's file and the literal rank 1 |
| Boards.ScanPositionsOnNewBoard | src/board.rs:69-85 | on a new board the white scan finds the first two ranks and the black scan the last two, file by file |
| Boards.InvisibleSquaresOnNewBoard | src/board.rs:77 | on a new board each colour gets sixteen squares, square k made from file k mod 8 and rank 1, so both colours get the same list |
| Selectors.Selector.constructor | src/selector.rs:22-28 | a new selector has no cursor, no from and no to |
| Selectors.Selector.GetCursor | src/selector.rs:44 | returns the cursor |
| Selectors.Selector.GetFrom | src/selector.rs:60 | returns the from square |
| Selectors.Selector.GetTo | src/selector.rs:76 | returns the to square |
| Selectors.Selector.SetCursor | src/selector.rs:100 | the cursor becomes the argument; from and to are unchanged |
| Selectors.Selector.SetFrom | src/selector.rs:116 | the from square becomes the argument; cursor and to are unchanged |
| Selectors.Selector.SetTo | src/selector.rs:132 | the to square becomes the argument; cursor and from are unchanged |
| Selectors.SelectorScenario | src/selector.rs:139-185 | a new selector is empty; a set cursor moves to the square above and changes; a cleared cursor stays cleared when moved; from and to read back what was set |
| Selectors.Selector.MoveCursorUp | src/selector.rs:78-84 | no cursor stays no cursor; a cursor moves to the square above it, and so changes; from and to are unchanged |
| Games.Game.constructor | src/game.rs:22-31 | a new game has a new board, White to move, and a fresh selector whose cursor is the given square and whose from and to are empty |
| Games.Game.GetBoard | src/game.rs:33 | returns the game's board |
| Games.Game.GetCurrentPlayer | src/game.rs:43 | returns the player to move |
| Games.Game.GetSelector | src/game.rs:45 | returns the game's selector |
| Games.GetInvisibleSquares | src/game.rs:48-50 | the invisible squares of the game's board for the colour |
| Games.GetPieceFromIndices | src/game.rs:52-54 | the slot at the file index on the rank at the rank index of the game's board |
| Games.GetPieceFromIndicesOnNewGame | src/game.rs:52-54 | in a game on its starting board every lookup gives the piece of the chess starting position |
| Games.NewGameScenario | src/game.rs:61-64 | a new game has White to move, sixteen hidden black squares and a white rook on a1 |

## Left out

- `get_random_square` (used by the `Game` constructor): randomness is not
  modelled. The `Games.Game.constructor` takes the initial cursor as a
  parameter instead.
- `create_coordinat_from_indices` is not part of this model. The scan takes
  it as a function parameter. Its one requirement is that every file index
  with rank 1 gives a valid coordinate, since `Square::new` panics otherwise.
- The helper `get_square_above` is not among the modelled files.
  `Squares.GetSquareAbove` stands in for it: it keeps the file and takes
  rank + 1, wrapping from the eighth rank to the first, as the comment on
  `move_cursor_up` says (src/selector.rs:78-79). Rank + 1 is "up" because
  the view draws rank index 0 at the bottom (src/game_view.rs:67).
- Boards.GetPieceFromIndices: requires the rank index to be at most 7. A
  board always has eight ranks, and the Rust indexing panics past the end.
- Ranks.CreatePiecesFromRankIndex: the `assert!(rank_index < 8)` panic is a
  precondition.
- `Square::new`, `FileIndex::new` and `Rank::new` panic on bad input; here
  they return `Err` or `None`.
- Squares.NewSquare: regular-expression matching is written out for the two
  patterns in use. It is not a general regex engine.
- Squares.GetRank: the slice-and-parse is written as digit arithmetic. On a
  valid coordinate the two agree.
- `u8`, `u32` and `usize` are unbounded naturals. Some arguments can take
  any value: the rank index of `get_piece_from_indices` and of
  `get_square_color_from_indices`, and the index given to `FileIndex::new`.
  Still, no core operation can wrap around. The arithmetic is only `% 2`,
  sums of two such remainders, and subtractions on characters that were
  already validated. `get_nth_file` returns `u32` but board.rs passes it
  where a `FileIndex` is expected; it is modelled as a number 0..7.
- Copies and equality of `Color`, `PieceType`, `Direction`, `Rank` and
  `Board` come from Dafny's value semantics, with no members of their own.
  This includes the copies and comparisons that src/piece.rs:24 and
  src/game.rs:33 rely on, although some of these Rust types do not derive
  `Clone`, `Copy` or `PartialEq`.
- The GUI (`game_view.rs`), `main.rs`, `assets.rs`, `is_on_gha.rs`,
  `scribble.rs`, `lib.rs`, `even_number.rs` and `rank_index.rs` are outside
  the modelled core: drawing, entry points, environment detection and unused
  helpers.
- Moves, captures and turn changes are not modelled: this version of the
  game has no code for them.
