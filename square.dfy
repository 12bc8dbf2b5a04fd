/** src/square.rs: a square of the board, named by its algebraic coordinate
    such as "a1": a file letter 'a'..'h' followed by a rank digit '1'..'8'. */
module Squares {

  import opened Wrappers

  /** The Rust struct `Square` with its one private field. */
  datatype SquareRecord = SquareRecord(coordinat: string)

  predicate IsFileChar(c: char) { 'a' <= c <= 'h' }

  predicate IsRankChar(c: char) { '1' <= c <= '8' }

  /** The strings `[a-h][1-8]`, the only ones `Square::new` accepts. */
  predicate IsCoordinat(s: string) {
    |s| == 2 && IsFileChar(s[0]) && IsRankChar(s[1])
  }

  /** A square always holds a valid coordinate: `Square::new` is the only way
      to build one. */
  type Square = square: SquareRecord | IsCoordinat(square.coordinat) witness SquareRecord("a1")

  /** The three panics of `Square::new`, in the order they are checked. */
  datatype SquareError =
    | WrongLength  // "A coordinat has two characters"
    | InvalidFile  // "The file must be 'a..h'"
    | InvalidRank  // "The rank must be '1..8'"

  predicate IsAscii(s: string) {
    forall i :: 0 <= i < |s| ==> s[i] as int < 0x80
  }

  /** Number of bytes of a character in UTF-8, the encoding of a Rust `str`. */
  function Utf8Width(c: char): (w: nat)
    ensures 1 <= w <= 4
    ensures w == 1 <==> c as int < 0x80
  {
    if c as int < 0x80 then 1
    else if c as int < 0x800 then 2
    else if c as int < 0x1_0000 then 3
    else 4
  }

  /** `str::len`: the length in bytes, not in characters. */
  function ByteLength(s: string): nat {
    if s == [] then 0 else Utf8Width(s[0]) + ByteLength(s[1..])
  }

  /** An ASCII string has as many bytes as characters. */
  lemma {:induction false} ByteLengthOfAscii(s: string)
    requires IsAscii(s)
    ensures ByteLength(s) == |s|
  {
    if s != [] {
      assert IsAscii(s[1..]) by {
        forall i | 0 <= i < |s[1..]| ensures s[1..][i] as int < 0x80 {
          assert s[1..][i] == s[i + 1];
        }
      }
      ByteLengthOfAscii(s[1..]);
    }
  }

  /** A string is at least as many bytes long as it has characters, and
      strictly longer as soon as one character is not ASCII. */
  lemma {:induction false} ByteLengthAtLeastLength(s: string)
    ensures ByteLength(s) >= |s|
    ensures !IsAscii(s) ==> ByteLength(s) > |s|
  {
    if s != [] {
      ByteLengthAtLeastLength(s[1..]);
      if !IsAscii(s) && s[0] as int < 0x80 {
        var i :| 0 <= i < |s| && s[i] as int >= 0x80;
        assert s[1..][i - 1] == s[i];
      }
    }
  }

  /** The regular expression `^[a-h].$`: its `.` matches any character but a
      line feed. */
  predicate MatchesFileRegex(s: string) {
    |s| == 2 && IsFileChar(s[0]) && s[1] != '\n'
  }

  /** The regular expression `^.[1-8]$`. */
  predicate MatchesRankRegex(s: string) {
    |s| == 2 && s[0] != '\n' && IsRankChar(s[1])
  }

  /** `Square::new`: checks the byte length, then the file, then the rank. */
  function NewSquare(s: string): (r: Result<Square, SquareError>)
    ensures r.Ok? <==> IsCoordinat(s)
    ensures r.Ok? ==> r.value.coordinat == s
    ensures r == Err(WrongLength) <==> ByteLength(s) != 2
  {
    assert IsCoordinat(s) ==> ByteLength(s) == 2 by {
      if IsCoordinat(s) {
        ByteLengthOfAscii(s);
      }
    }
    if ByteLength(s) != 2 then Err(WrongLength)
    else if !MatchesFileRegex(s) then Err(InvalidFile)
    else if !MatchesRankRegex(s) then Err(InvalidRank)
    else Ok(SquareRecord(s))
  }

  /** On ASCII input each check reports exactly its own kind of fault, except
      that a line feed in second place fails the file pattern. */
  lemma NewSquareErrorsOnAscii(s: string)
    requires IsAscii(s)
    ensures NewSquare(s) == Err(WrongLength) <==> |s| != 2
    ensures NewSquare(s) == Err(InvalidFile) <==> |s| == 2 && (!IsFileChar(s[0]) || s[1] == '\n')
    ensures NewSquare(s) == Err(InvalidRank) <==>
              |s| == 2 && IsFileChar(s[0]) && s[1] != '\n' && !IsRankChar(s[1])
  {
    ByteLengthOfAscii(s);
  }

  /** A string with a character outside ASCII never makes a square; with two
      or more characters it already fails the length check. */
  lemma NewSquareRejectsNonAscii(s: string)
    requires !IsAscii(s)
    ensures NewSquare(s).Err?
    ensures |s| >= 2 ==> NewSquare(s) == Err(WrongLength)
  {
    ByteLengthAtLeastLength(s);
  }

  lemma NewSquareExamples()
    ensures NewSquare("X") == Err(WrongLength)
    ensures NewSquare("X1") == Err(InvalidFile)
    ensures NewSquare("a9") == Err(InvalidRank)
    ensures NewSquare("a\n") == Err(InvalidFile)
    ensures NewSquare("a2") == Ok(SquareRecord("a2"))
  {
    NewSquareErrorsOnAscii("X");
    NewSquareErrorsOnAscii("X1");
    NewSquareErrorsOnAscii("a9");
    NewSquareErrorsOnAscii("a\n");
  }

  /** `get`: the coordinate the square was made from. */
  function Get(square: Square): (s: string)
    ensures IsCoordinat(s)
    ensures s == square.coordinat
  {
    square.coordinat
  }

  /** Making a square and reading it back gives the string unchanged ... */
  lemma GetAfterNew(s: string)
    requires IsCoordinat(s)
    ensures NewSquare(s).Ok? && Get(NewSquare(s).value) == s
  {
  }

  /** ... and every square is what `Square::new` makes of its coordinate. */
  lemma NewAfterGet(square: Square)
    ensures NewSquare(Get(square)) == Ok(square)
  {
  }

  /** `get_file`: the file letter, as a one-character string. */
  function GetFile(square: Square): (file: string)
    ensures |file| == 1 && IsFileChar(file[0])
    ensures file[0] == Get(square)[0]
  {
    [square.coordinat[0]]
  }

  /** `get_rank`: the rank digit parsed as a number. */
  function GetRank(square: Square): (rank: nat)
    ensures 1 <= rank <= 8
    ensures Get(square)[1] == ('0' as int + rank) as char
  {
    square.coordinat[1] as int - '0' as int
  }

  /** `get_nth_file`: the file letter's distance from 'a'. */
  function GetNthFile(square: Square): (n: nat)
    ensures n <= 7
    ensures GetFile(square)[0] == ('a' as int + n) as char
  {
    GetFile(square)[0] as int - 'a' as int
  }

  /** `get_nth_rank`: the rank minus one, never below zero. */
  function GetNthRank(square: Square): (n: nat)
    ensures n <= 7
    ensures n + 1 == GetRank(square)
  {
    GetRank(square) - 1
  }

  /** Squares are equal exactly when their file and rank indices are. */
  lemma NthIndicesDetermineSquare(a: Square, b: Square)
    ensures a == b <==> GetNthFile(a) == GetNthFile(b) && GetNthRank(a) == GetNthRank(b)
  {
    if GetNthFile(a) == GetNthFile(b) && GetNthRank(a) == GetNthRank(b) {
      assert a.coordinat[0] == b.coordinat[0];
      assert a.coordinat[1] == b.coordinat[1];
      assert a.coordinat == b.coordinat;
    }
  }

  lemma AccessorExamples()
    ensures Get(SquareRecord("h3")) == "h3"
    ensures GetFile(SquareRecord("b8")) == "b"
    ensures GetRank(SquareRecord("c4")) == 4
    ensures GetNthFile(SquareRecord("a1")) == 0 && GetNthRank(SquareRecord("a1")) == 0
    ensures GetNthFile(SquareRecord("a2")) == 0 && GetNthRank(SquareRecord("a2")) == 1
    ensures GetNthFile(SquareRecord("b1")) == 1 && GetNthRank(SquareRecord("b1")) == 0
    ensures GetNthFile(SquareRecord("h1")) == 7 && GetNthRank(SquareRecord("a8")) == 7
  {
  }

  /** `get_square_above`: one rank up on the same file; above the eighth rank
      comes the first again. */
  function GetSquareAbove(square: Square): (above: Square)
    ensures GetNthFile(above) == GetNthFile(square)
    ensures GetNthRank(above) == (GetNthRank(square) + 1) % 8
    ensures above != square
  {
    var rank := (GetNthRank(square) + 1) % 8;
    var above := SquareRecord([square.coordinat[0], ('1' as int + rank) as char]);
    assert above.coordinat[1] == ('1' as int + rank) as char;
    above
  }

  /** The cursor wraps from the top of the board to the bottom. */
  lemma SquareAboveWraps()
    ensures GetSquareAbove(SquareRecord("d8")) == SquareRecord("d1")
    ensures GetSquareAbove(SquareRecord("d4")) == SquareRecord("d5")
  {
    NthIndicesDetermineSquare(GetSquareAbove(SquareRecord("d8")), SquareRecord("d1"));
    NthIndicesDetermineSquare(GetSquareAbove(SquareRecord("d4")), SquareRecord("d5"));
  }
}
