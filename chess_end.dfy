/**
 * The end-of-game tests of board.py (`game_result`, `_insufficient`), the
 * material count (`material`) and the starting position the `Board`
 * constructor loads.
 */
module ChessEnd {
  import opened Common
  import opened PyStr
  import opened ChessPosition
  import opened ChessRules
  import opened FenText

  // ---------------------------------------------------------------- start position

  const BackRank: seq<char> := "rnbqkbnr"
  const Empty8: seq<char> := "........"

  /** The position START_FEN describes. */
  const StartPosition: Position := Position(
    [BackRank, "pppppppp", Empty8, Empty8, Empty8, Empty8, "PPPPPPPP", "RNBQKBNR"],
    "w", "KQkq", "-", 0, 1)

  lemma EmptyRankFen()
    ensures RankFen(Empty8) == "8"
  {
    var r := Empty8;
    assert RankFenFrom(r, 0) == RankFenFrom(r[1..], 1);
    assert RankFenFrom(r[1..], 1) == RankFenFrom(r[2..], 2);
    assert RankFenFrom(r[2..], 2) == RankFenFrom(r[3..], 3);
    assert RankFenFrom(r[3..], 3) == RankFenFrom(r[4..], 4);
    assert RankFenFrom(r[4..], 4) == RankFenFrom(r[5..], 5);
    assert RankFenFrom(r[5..], 5) == RankFenFrom(r[6..], 6);
    assert RankFenFrom(r[6..], 6) == RankFenFrom(r[7..], 7);
    assert RankFenFrom(r[7..], 7) == RankFenFrom([], 8);
  }

  /** A rank without empty cells is written as itself. */
  lemma {:induction false} FullRankFen(row: seq<char>)
    requires forall i :: 0 <= i < |row| ==> row[i] != '.'
    ensures RankFenFrom(row, 0) == row
  {
    if row != [] {
      FullRankFen(row[1..]);
      assert EmptyRun(0) == "";
      assert row == [row[0]] + row[1..];
    }
  }

  /** A rank of eight pieces is written as itself. */
  lemma PieceRankFen(row: seq<char>)
    requires |row| == 8
    requires row[0] != '.' && row[1] != '.' && row[2] != '.' && row[3] != '.'
    requires row[4] != '.' && row[5] != '.' && row[6] != '.' && row[7] != '.'
    ensures RankFen(row) == row
  {
    FullRankFen(row);
  }

  lemma StartPieceRanks()
    ensures var rs := RankFens(StartPosition.grid);
      rs[0] == "rnbqkbnr" && rs[1] == "pppppppp" && rs[6] == "PPPPPPPP" && rs[7] == "RNBQKBNR"
  {
    PieceRankFen("rnbqkbnr");
    PieceRankFen("pppppppp");
    PieceRankFen("PPPPPPPP");
    PieceRankFen("RNBQKBNR");
  }

  lemma StartEmptyRanks()
    ensures var rs := RankFens(StartPosition.grid);
      rs[2] == "8" && rs[3] == "8" && rs[4] == "8" && rs[5] == "8"
  {
    EmptyRankFen();
  }

  lemma StartPlacement()
    ensures Placement(StartPosition.grid) == "rnbqkbnr/pppppppp/8/8/8/8/PPPPPPPP/RNBQKBNR"
  {
    StartPieceRanks();
    StartEmptyRanks();
    JoinStartRanks(RankFens(StartPosition.grid));
  }

  /** `to_fen()` of the starting position is START_FEN. */
  lemma StartToFen()
    ensures ToFen(StartPosition) == StartFen
  {
    StartPlacement();
    assert IntToString(0) == "0" && IntToString(1) == "1";
    JoinStartFields(FenFields(StartPosition));
  }

  lemma StartFaithful()
    ensures FenFaithful(StartPosition)
  {
    var g := StartPosition.grid;
    forall r, c | 0 <= r < 8 && 0 <= c < 8 ensures ValidCell(g[r][c]) {
      assert g[r] in [BackRank, "pppppppp", Empty8, "PPPPPPPP", "RNBQKBNR"];
    }
    assert Token("w") && Token("KQkq") && Token("-");
  }

  /** The constructor's `_load_fen(START_FEN)` installs the starting position. */
  lemma StartFenLoads()
    ensures LoadFen(StartFen) == Some(StartPosition)
    ensures WellFormed(StartPosition)
  {
    StartToFen();
    StartFaithful();
    FenRoundTrip(StartPosition);
  }

  // ---------------------------------------------------------------- material

  /** The lower-cased kinds of one side's pieces in `row`, left to right; a non-letter counts as Black's, as `isupper()` decides. */
  function RowMen(row: seq<char>, white: bool): seq<char> {
    if row == [] then []
    else (if row[0] != '.' && IsUpper(row[0]) == white then [Lower(row[0])] else []) + RowMen(row[1..], white)
  }

  /** The kinds of one side's pieces, rank 8 first: the lists `ws` and `bs` of `_insufficient`. */
  function Men(grid: seq<seq<char>>, white: bool): seq<char> {
    if grid == [] then [] else RowMen(grid[0], white) + Men(grid[1..], white)
  }

  /** constants.py PIECE_VALUES, with 0 for any other letter (`.get(..., 0)`). */
  function PieceValue(kind: char): (v: nat)
    ensures v <= 9
  {
    match kind
    case 'p' => 1
    case 'n' => 3
    case 'b' => 3
    case 'r' => 5
    case 'q' => 9
    case _ => 0
  }

  function SumValues(kinds: seq<char>): nat {
    if kinds == [] then 0 else PieceValue(kinds[0]) + SumValues(kinds[1..])
  }

  /** One side's total of `material()`. */
  function MaterialOf(grid: seq<seq<char>>, white: bool): nat {
    SumValues(Men(grid, white))
  }

  lemma {:induction false} SumValuesAppend(a: seq<char>, b: seq<char>)
    ensures SumValues(a + b) == SumValues(a) + SumValues(b)
  {
    if a != [] {
      assert (a + b)[1..] == a[1..] + b;
      SumValuesAppend(a[1..], b);
    } else {
      assert a + b == b;
    }
  }

  lemma {:induction false} RowMenAppend(a: seq<char>, b: seq<char>, white: bool)
    ensures RowMen(a + b, white) == RowMen(a, white) + RowMen(b, white)
  {
    if a != [] {
      assert (a + b)[1..] == a[1..] + b;
      RowMenAppend(a[1..], b, white);
    } else {
      assert a + b == b;
    }
  }

  lemma {:induction false} MenAppend(a: seq<seq<char>>, b: seq<seq<char>>, white: bool)
    ensures Men(a + b, white) == Men(a, white) + Men(b, white)
  {
    if a != [] {
      assert (a + b)[1..] == a[1..] + b;
      MenAppend(a[1..], b, white);
    } else {
      assert a + b == b;
    }
  }

  /** Every piece on the board shows up, lower-cased, in its side's list. */
  lemma {:induction false} MenHas(grid: seq<seq<char>>, r: int, c: int)
    requires 0 <= r < |grid| && 0 <= c < |grid[r]| && grid[r][c] != '.'
    ensures Lower(grid[r][c]) in Men(grid, IsUpper(grid[r][c]))
  {
    var w := IsUpper(grid[r][c]);
    if r == 0 {
      RowMenHas(grid[0], c);
    } else {
      MenHas(grid[1..], r - 1, c);
    }
  }

  lemma {:induction false} RowMenHas(row: seq<char>, c: int)
    requires 0 <= c < |row| && row[c] != '.'
    ensures Lower(row[c]) in RowMen(row, IsUpper(row[c]))
  {
    if c > 0 {
      RowMenHas(row[1..], c - 1);
    }
  }

  /** Every entry of a side's list comes from a cell holding one of `cells`. */
  lemma {:induction false} MenFrom(grid: seq<seq<char>>, white: bool, cells: set<char>, x: char)
    requires forall r, c :: 0 <= r < |grid| && 0 <= c < |grid[r]| ==> grid[r][c] in cells
    requires x in Men(grid, white)
    ensures exists ch :: ch in cells && ch != '.' && Lower(ch) == x
  {
    if x in RowMen(grid[0], white) {
      RowMenFrom(grid[0], white, cells, x);
    } else {
      MenFrom(grid[1..], white, cells, x);
    }
  }

  lemma {:induction false} RowMenFrom(row: seq<char>, white: bool, cells: set<char>, x: char)
    requires forall c :: 0 <= c < |row| ==> row[c] in cells
    requires x in RowMen(row, white)
    ensures exists ch :: ch in cells && ch != '.' && Lower(ch) == x
  {
    if row[0] != '.' && IsUpper(row[0]) == white && x == Lower(row[0]) {
    } else {
      RowMenFrom(row[1..], white, cells, x);
    }
  }

  // ---------------------------------------------------------------- _insufficient

  /** The test `_insufficient` applies to the two lists of non-king pieces. */
  predicate TooFew(ws: seq<char>, bs: seq<char>) {
    || (ws == [] && bs == [])
    || (ws == [] && (bs == "b" || bs == "n"))
    || (bs == [] && (ws == "b" || ws == "n"))
  }

  /** One side's pieces other than its king (`[p for p in ws if p != 'k']`). */
  function Others(p: Position, white: bool): seq<char> {
    RemoveChar(Men(p.grid, white), 'k')
  }

  /**
   * `_insufficient()`: with the kings set aside, neither side has anything,
   * or one side has nothing and the other a single bishop or knight.
   */
  predicate Insufficient(p: Position) {
    TooFew(Others(p, true), Others(p, false))
  }

  lemma TooFewCount(ws: seq<char>, bs: seq<char>)
    ensures TooFew(ws, bs) <==> (|ws + bs| == 0 || (|ws + bs| == 1 && (ws + bs)[0] in "bn"))
  {
    var all := ws + bs;
    if |all| == 1 && all[0] in "bn" {
      if ws == [] {
        assert all == bs;
        assert bs == [bs[0]];
      } else {
        assert ws == [ws[0]] && bs == [];
      }
    }
  }

  /**
   * Counted over both sides: insufficient material means at most one piece
   * besides the kings, and that piece a bishop or a knight.
   */
  lemma InsufficientCount(p: Position)
    ensures var all := Others(p, true) + Others(p, false);
      Insufficient(p) <==> (|all| == 0 || (|all| == 1 && all[0] in "bn"))
  {
    TooFewCount(Others(p, true), Others(p, false));
  }

  /** With insufficient material no pawn, rook or queen is left on the board. */
  lemma InsufficientNoHeavy(p: Position, r: int, c: int)
    requires 0 <= r < |p.grid| && 0 <= c < |p.grid[r]| && Insufficient(p)
    ensures var kind := Lower(p.grid[r][c]); kind != 'p' && kind != 'r' && kind != 'q'
  {
    var ch := p.grid[r][c];
    if ch != '.' && Lower(ch) != 'k' {
      var x := Lower(ch);
      assert x in Others(p, IsUpper(ch)) by {
        MenHas(p.grid, r, c);
        OthersHas(p, IsUpper(ch), x);
      }
      TooFewMembers(Others(p, true), Others(p, false), x);
    }
  }

  lemma TooFewMembers(ws: seq<char>, bs: seq<char>, x: char)
    requires TooFew(ws, bs) && (x in ws || x in bs)
    ensures x == 'b' || x == 'n'
  {
  }

  lemma OthersHas(p: Position, white: bool, x: char)
    requires x in Men(p.grid, white) && x != 'k'
    ensures x in Others(p, white)
  {
    var men := Men(p.grid, white);
    RemoveCharCount(men, 'k');
    assert multiset(Others(p, white))[x] == multiset(men)[x] > 0;
  }

  /** A board holding nothing but kings is a draw by insufficient material. */
  lemma KingsOnly(p: Position)
    requires forall r, c :: 0 <= r < |p.grid| && 0 <= c < |p.grid[r]| ==> p.grid[r][c] in {'.', 'K', 'k'}
    ensures Insufficient(p)
  {
    NoOthers(p, true);
    NoOthers(p, false);
  }

  lemma NoOthers(p: Position, white: bool)
    requires forall r, c :: 0 <= r < |p.grid| && 0 <= c < |p.grid[r]| ==> p.grid[r][c] in {'.', 'K', 'k'}
    ensures Others(p, white) == []
  {
    var rest := Others(p, white);
    if rest != [] {
      var men := Men(p.grid, white);
      assert multiset(rest)[rest[0]] > 0;
      assert rest[0] != 'k' && rest[0] in men;
      MenFrom(p.grid, white, {'.', 'K', 'k'}, rest[0]);
      assert false;
    }
  }

  /** Kings are worth nothing, so setting them aside leaves the total unchanged. */
  lemma {:induction false} SumValuesWithoutKings(s: seq<char>)
    ensures SumValues(RemoveChar(s, 'k')) == SumValues(s)
  {
    if s != [] {
      SumValuesWithoutKings(s[1..]);
      var head := if s[0] == 'k' then [] else [s[0]];
      assert RemoveChar(s, 'k') == head + RemoveChar(s[1..], 'k');
      SumValuesAppend(head, RemoveChar(s[1..], 'k'));
    }
  }

  /** Insufficient material leaves each side with at most a minor piece's worth (3). */
  lemma InsufficientMaterial(p: Position)
    requires Insufficient(p)
    ensures MaterialOf(p.grid, true) <= 3 && MaterialOf(p.grid, false) <= 3
  {
    SumValuesWithoutKings(Men(p.grid, true));
    SumValuesWithoutKings(Men(p.grid, false));
    TooFewValue(Others(p, true), Others(p, false));
  }

  lemma TooFewValue(ws: seq<char>, bs: seq<char>)
    requires TooFew(ws, bs)
    ensures SumValues(ws) <= 3 && SumValues(bs) <= 3
  {
  }

  // ---------------------------------------------------------------- game_result

  /** The tuple `(over, result, reason, winner)` of `game_result()`. */
  datatype Outcome = Outcome(over: bool, result: string, reason: string, winner: Option<string>)

  /** `pos_history.get(key, 0)`. */
  function Repetitions(history: map<string, int>, key: string): int {
    if key in history then history[key] else 0
  }

  /**
   * `game_result()` for the position `p` and the repetition counts `history`:
   * no legal move ends the game first (checkmate when in check, stalemate
   * otherwise), then the 50-move rule (FIDE Laws, Article 9.3), then a third
   * repetition (Article 9.2), then insufficient material.
   */
  function GameResult(p: Position, history: map<string, int>): (o: Outcome)
    requires WellFormed(p)
    ensures o.over <==>
      (LegalMoves(p) == [] || p.halfmove >= 100 || Repetitions(history, PosKey(p)) >= 3 || Insufficient(p))
    ensures !o.over ==> o == Outcome(false, "", "", None)
    ensures o.winner.Some? <==> (LegalMoves(p) == [] && InCheck(p, p.turn))
    ensures o.over && o.winner.None? ==> o.result == "1/2-1/2"
  {
    if LegalMoves(p) == [] then
      if InCheck(p, p.turn) then
        Outcome(true, if p.turn == "w" then "0-1" else "1-0", "Checkmate",
                Some(if p.turn == "w" then "black" else "white"))
      else Outcome(true, "1/2-1/2", "Stalemate", None)
    else if p.halfmove >= 100 then Outcome(true, "1/2-1/2", "Draw by 50-move rule", None)
    else if Repetitions(history, PosKey(p)) >= 3 then Outcome(true, "1/2-1/2", "Draw by threefold repetition", None)
    else if Insufficient(p) then Outcome(true, "1/2-1/2", "Draw by insufficient material", None)
    else Outcome(false, "", "", None)
  }

  /**
   * A decisive result is checkmate: the side to move is in check and has no
   * legal move at all, and the point goes to the other side.
   */
  lemma CheckmateMeans(p: Position, history: map<string, int>, m: Move)
    requires WellFormed(p) && GameResult(p, history).winner.Some?
    ensures InCheck(p, p.turn) && !IsLegal(p, p.turn, m)
    ensures var o := GameResult(p, history);
      && o.reason == "Checkmate"
      && (o.result == "1-0" <==> o.winner == Some("white"))
      && (o.winner == Some("white") <==> p.turn != "w")
  {
    LegalMovesExactly(p, p.turn, m);
  }

  /** Stalemate: the side to move is not in check and has no legal move. */
  lemma StalemateMeans(p: Position, history: map<string, int>, m: Move)
    requires WellFormed(p) && GameResult(p, history).reason == "Stalemate"
    ensures !InCheck(p, p.turn) && !IsLegal(p, p.turn, m)
  {
    LegalMovesExactly(p, p.turn, m);
  }

  /** While the side to move has a legal move the game can only end drawn. */
  lemma LegalMoveNoWinner(p: Position, history: map<string, int>, m: Move)
    requires WellFormed(p) && IsLegal(p, p.turn, m)
    ensures GameResult(p, history).winner.None?
    ensures GameResult(p, history).result in {"", "1/2-1/2"}
  {
    LegalMovesExactly(p, p.turn, m);
  }
}
