/**
 * A chess position as board.py's `Board` holds it: an 8x8 grid of
 * one-character cells ('.' or a piece letter, upper case for White), the
 * side to move, the castling-rights string, the en-passant square, the
 * halfmove clock and the fullmove number; and its FEN text form
 * (`to_fen`, `_load_fen`, `_pos_key`).
 */
module ChessPosition {
  import opened Common
  import opened PyStr

  /** constants.py START_FEN. */
  const StartFen: string := "rnbqkbnr/pppppppp/8/8/8/8/PPPPPPPP/RNBQKBNR w KQkq - 0 1"

  /** Row 0 is rank 8, column 0 is file a. */
  datatype Position = Position(
    grid: seq<seq<char>>,
    turn: string,
    castling: string,
    ep: string,
    halfmove: int,
    fullmove: int)

  /** `utils.valid(r, c)`. */
  predicate OnBoard(r: int, c: int) { 0 <= r < 8 && 0 <= c < 8 }

  /**
   * The en-passant field as the rules read it: "-" or a string whose second
   * character is a digit (`int(self.ep[1])`); anything else makes Python raise.
   */
  predicate ValidEp(ep: string) {
    ep == "-" || (|ep| >= 2 && IsDigit(ep[1]))
  }

  /**
   * The shape every rules function indexes without failing: eight rows of
   * eight cells, a side to move and a readable en-passant field.
   */
  predicate WellFormed(p: Position) {
    && |p.grid| == 8
    && (forall r :: 0 <= r < 8 ==> |p.grid[r]| == 8)
    && p.turn != ""
    && ValidEp(p.ep)
  }

  predicate PieceChar(ch: char) {
    || ch == 'P' || ch == 'N' || ch == 'B' || ch == 'R' || ch == 'Q' || ch == 'K'
    || ch == 'p' || ch == 'n' || ch == 'b' || ch == 'r' || ch == 'q' || ch == 'k'
  }

  predicate ValidCell(ch: char) {
    ch == '.' || PieceChar(ch)
  }

  /** `is_w`: a white piece (the cell is never the empty string here). */
  predicate IsWhite(ch: char) { ch != '.' && IsUpper(ch) }

  /** `is_b`: a black piece. */
  predicate IsBlack(ch: char) { ch != '.' && IsLower(ch) }

  /** The file letter of column `c` (`chr(ord('a') + c)`). */
  function FileChar(c: int): (ch: char)
    requires 0 <= c < 8
    ensures 'a' <= ch <= 'h' && ch as int - 'a' as int == c
  {
    ('a' as int + c) as char
  }

  /** The rank digit of row `r` (`str(8 - r)`). */
  function RankChar(r: int): (ch: char)
    requires 0 <= r < 8
    ensures '1' <= ch <= '8' && IsDigit(ch) && 8 - DigitVal(ch) == r
  {
    DigitChar(8 - r)
  }

  /** The algebraic name of a square, such as "e4". */
  function SquareName(r: int, c: int): string
    requires OnBoard(r, c)
  {
    [FileChar(c), RankChar(r)]
  }

  // ---------------------------------------------------------------- to_fen

  function EmptyRun(e: nat): string {
    if e > 0 then NatToString(e) else ""
  }

  /** One rank of the piece field, `e` empty cells already counted. */
  function RankFenFrom(row: seq<char>, e: nat): string {
    if row == [] then EmptyRun(e)
    else if row[0] == '.' then RankFenFrom(row[1..], e + 1)
    else EmptyRun(e) + [row[0]] + RankFenFrom(row[1..], 0)
  }

  function RankFen(row: seq<char>): string {
    RankFenFrom(row, 0)
  }

  function RankFens(grid: seq<seq<char>>): (r: seq<string>)
    ensures |r| == |grid|
    ensures forall i :: 0 <= i < |grid| ==> r[i] == RankFen(grid[i])
  {
    seq(|grid|, i requires 0 <= i < |grid| => RankFen(grid[i]))
  }

  /** The piece-placement field: ranks joined by '/'. */
  function Placement(grid: seq<seq<char>>): string {
    Join("/", RankFens(grid))
  }

  /** The six FEN fields of `to_fen`; empty castling rights are written "-". */
  function FenFields(p: Position): seq<string> {
    [Placement(p.grid), p.turn, if p.castling != "" then p.castling else "-", p.ep,
     IntToString(p.halfmove), IntToString(p.fullmove)]
  }

  /** `to_fen`: the six fields separated by single spaces. */
  function ToFen(p: Position): string {
    Join(" ", FenFields(p))
  }

  /** `_pos_key`: the first four fields of the FEN, the repetition key. */
  function PosKey(p: Position): string {
    var parts := Split(ToFen(p));
    Join(" ", parts[..if |parts| < 4 then |parts| else 4])
  }

  // ---------------------------------------------------------------- _load_fen

  function Dots(n: nat): (s: seq<char>)
    ensures |s| == n && forall i :: 0 <= i < n ==> s[i] == '.'
  {
    seq(n, _ => '.')
  }

  /** One rank of the piece field read back: a digit stands for that many empty cells. */
  function LoadRank(s: string): seq<char> {
    if s == [] then []
    else (if IsDigit(s[0]) then Dots(DigitVal(s[0])) else [s[0]]) + LoadRank(s[1..])
  }

  function LoadGrid(placement: string): seq<seq<char>> {
    var rows := SplitOn(placement, '/');
    seq(|rows|, i requires 0 <= i < |rows| => LoadRank(rows[i]))
  }

  /** `parts[i] if len(parts) > i else default`. */
  function FieldOr(parts: seq<string>, i: nat, default: string): string {
    if |parts| > i then parts[i] else default
  }

  /** `int(parts[i]) if len(parts) > i else default`; `None` where `int` raises. */
  function ClockOr(parts: seq<string>, i: nat, default: int): Option<int> {
    if |parts| > i then ParseInt(parts[i]) else Some(default)
  }

  /**
   * `_load_fen` as a whole: the position it installs, or `None` where it
   * raises (no fields at all, or a clock field that is not an integer).
   * No field is validated beyond that, as in the source.
   */
  function LoadFen(fen: string): Option<Position> {
    var parts := Split(fen);
    if |parts| == 0 then None
    else
      var hm := ClockOr(parts, 4, 0);
      var fm := ClockOr(parts, 5, 1);
      if hm.None? || fm.None? then None
      else Some(Position(LoadGrid(parts[0]), FieldOr(parts, 1, "w"), FieldOr(parts, 2, "-"),
                         FieldOr(parts, 3, "-"), hm.value, fm.value))
  }

  // ---------------------------------------------------------------- round trip

  /** A field that survives `split()` unchanged. */
  predicate Token(s: string) {
    s != [] && NoSpace(s)
  }

  /** A position whose FEN reads back to itself. */
  predicate FenFaithful(p: Position) {
    && |p.grid| == 8
    && (forall r :: 0 <= r < 8 ==> |p.grid[r]| == 8)
    && (forall r, c :: 0 <= r < 8 && 0 <= c < 8 ==> ValidCell(p.grid[r][c]))
    && Token(p.turn) && Token(p.castling) && Token(p.ep)
  }

  lemma LoadRankAppend(a: string, b: string)
    ensures LoadRank(a + b) == LoadRank(a) + LoadRank(b)
  {
    if a != [] {
      assert (a + b)[1..] == a[1..] + b;
      LoadRankAppend(a[1..], b);
    } else {
      assert a + b == b;
    }
  }

  lemma LoadEmptyRun(e: nat)
    requires e <= 9
    ensures LoadRank(EmptyRun(e)) == Dots(e)
  {
    if e > 0 {
      assert EmptyRun(e) == [DigitChar(e)];
      assert LoadRank([DigitChar(e)]) == Dots(e) + LoadRank([]);
    }
  }

  /** Run-length encoding of a rank reads back to the rank. */
  lemma {:induction false} RankRoundTrip(row: seq<char>, e: nat)
    requires e + |row| <= 9
    requires forall i :: 0 <= i < |row| ==> ValidCell(row[i])
    ensures LoadRank(RankFenFrom(row, e)) == Dots(e) + row
  {
    if row == [] {
      LoadEmptyRun(e);
    } else if row[0] == '.' {
      RankRoundTrip(row[1..], e + 1);
      DotStep(row, e);
    } else {
      RankRoundTrip(row[1..], 0);
      PieceStep(row, e);
    }
  }

  lemma DotStep(row: seq<char>, e: nat)
    requires row != [] && row[0] == '.'
    requires LoadRank(RankFenFrom(row[1..], e + 1)) == Dots(e + 1) + row[1..]
    ensures LoadRank(RankFenFrom(row, e)) == Dots(e) + row
  {
    assert RankFenFrom(row, e) == RankFenFrom(row[1..], e + 1);
    assert Dots(e + 1) == Dots(e) + [row[0]];
    assert row == [row[0]] + row[1..];
  }

  lemma PieceStep(row: seq<char>, e: nat)
    requires row != [] && row[0] != '.' && ValidCell(row[0]) && e <= 9
    requires LoadRank(RankFenFrom(row[1..], 0)) == Dots(0) + row[1..]
    ensures LoadRank(RankFenFrom(row, e)) == Dots(e) + row
  {
    var rest := RankFenFrom(row[1..], 0);
    assert RankFenFrom(row, e) == EmptyRun(e) + [row[0]] + rest;
    assert !IsDigit(row[0]);
    LoadRankPiece(EmptyRun(e), row[0], rest);
    LoadEmptyRun(e);
    assert Dots(0) + row[1..] == row[1..];
    assert row == [row[0]] + row[1..];
  }

  lemma LoadRankPiece(a: string, ch: char, b: string)
    requires !IsDigit(ch)
    ensures LoadRank(a + [ch] + b) == LoadRank(a) + [ch] + LoadRank(b)
  {
    LoadRankAppend(a + [ch], b);
    LoadRankAppend(a, [ch]);
    assert LoadRank([ch]) == [ch] + LoadRank([]);
  }

  /** A rank's text is a non-empty token without '/' once the rank has a cell. */
  lemma {:induction false} RankFenShape(row: seq<char>, e: nat)
    requires forall i :: 0 <= i < |row| ==> ValidCell(row[i])
    requires e > 0 || row != []
    ensures var s := RankFenFrom(row, e); Token(s) && '/' !in s
  {
    if row == [] {
      assert EmptyRun(e) == NatToString(e);
    } else if row[0] == '.' {
      RankFenShape(row[1..], e + 1);
    } else {
      var rest := RankFenFrom(row[1..], 0);
      if row[1..] != [] {
        RankFenShape(row[1..], 0);
      } else {
        assert rest == [];
      }
      var s := EmptyRun(e) + [row[0]] + rest;
      assert e > 0 ==> EmptyRun(e) == NatToString(e);
      assert forall i :: 0 <= i < |EmptyRun(e)| ==> IsDigit(EmptyRun(e)[i]);
      assert forall i :: 0 <= i < |s| ==> s[i] == (if i < |EmptyRun(e)| then EmptyRun(e)[i]
        else if i == |EmptyRun(e)| then row[0] else rest[i - |EmptyRun(e)| - 1]);
    }
  }

  lemma PlacementRoundTrip(grid: seq<seq<char>>)
    requires |grid| == 8
    requires forall r :: 0 <= r < 8 ==> |grid[r]| == 8
    requires forall r, c :: 0 <= r < 8 && 0 <= c < 8 ==> ValidCell(grid[r][c])
    ensures LoadGrid(Placement(grid)) == grid
    ensures Token(Placement(grid))
  {
    var ranks := RankFens(grid);
    forall i | 0 <= i < 8
      ensures Token(ranks[i]) && '/' !in ranks[i] && LoadRank(ranks[i]) == grid[i]
    {
      RankFenShape(grid[i], 0);
      RankRoundTrip(grid[i], 0);
      assert Dots(0) + grid[i] == grid[i];
    }
    SplitOnJoin(ranks, '/');
    JoinTokens(ranks, "/");
  }

  /** Joining tokens with a space-free separator gives a token. */
  lemma {:induction false} JoinTokens(parts: seq<string>, sep: string)
    requires |parts| >= 1
    requires NoSpace(sep)
    requires forall i :: 0 <= i < |parts| ==> Token(parts[i])
    ensures Token(Join(sep, parts))
  {
    if |parts| > 1 {
      JoinTokens(parts[1..], sep);
      var a, b := parts[0], Join(sep, parts[1..]);
      var s := a + sep + b;
      assert forall i :: 0 <= i < |s| ==> s[i] == (if i < |a| then a[i]
        else if i < |a| + |sep| then sep[i - |a|] else b[i - |a| - |sep|]);
    }
  }

  /**
   * `_load_fen(to_fen())` reproduces the position: grid, side to move,
   * castling rights, en-passant square and both clocks.
   */
  lemma FenRoundTrip(p: Position)
    requires FenFaithful(p)
    ensures LoadFen(ToFen(p)) == Some(p)
  {
    PlacementRoundTrip(p.grid);
    SplitJoin(FenFields(p));
    ParseIntToString(p.halfmove);
    ParseIntToString(p.fullmove);
  }
}
