/**
 * board.py's `Board` as an object: the position fields it updates in place,
 * the move history, the repetition counts, the captured-piece lists and the
 * material cache, with `_load_fen`, `to_fen`, `apply_uci`, `material` and
 * the move-history helpers as its methods.
 */
module ChessBoard {
  import opened Common
  import opened PyStr
  import opened ChessPosition
  import opened ChessRules
  import opened ChessSan
  import opened ChessEnd

  /** One `move_history` entry: `(uci, san, fen_after)`. */
  datatype HistoryEntry = HistoryEntry(uci: string, san: string, fen: string)

  /** Why `apply_uci` raises `ValueError`. */
  datatype UciError =
    | BadUci       // fewer than four characters
    | BadDigit     // `int(uci[1])` or `int(uci[3])` fails
    | IllegalMove  // not a legal move, and not completable to a queen promotion

  // ---------------------------------------------------------------- reading a UCI move

  /**
   * The five fields `apply_uci` reads from its argument: origin and target
   * from characters 0-3 and the lower-cased fifth character, if any, as
   * the promotion. Nothing is range-checked here, as in the source.
   */
  function UciFields(uci: string): (r: Result<Move, UciError>)
    ensures r.Err? <==> |uci| < 4 || !IsDigit(uci[1]) || !IsDigit(uci[3])
    ensures r.Err? ==> r.error == (if |uci| < 4 then BadUci else BadDigit)
  {
    if |uci| < 4 then Err(BadUci)
    else
      var fr, tr := ParseInt([uci[1]]), ParseInt([uci[3]]);
      assert fr.Some? <==> IsDigit(uci[1]) by { assert DigitGroups([uci[1]]) <==> IsDigit(uci[1]); }
      assert tr.Some? <==> IsDigit(uci[3]) by { assert DigitGroups([uci[3]]) <==> IsDigit(uci[3]); }
      if fr.None? || tr.None? then Err(BadDigit)
      else Ok(Move(8 - fr.value, uci[0] as int - 'a' as int, 8 - tr.value, uci[2] as int - 'a' as int,
                   if |uci| > 4 then Some(Lower(uci[4])) else None))
  }

  /**
   * The move `apply_uci` plays for `uci` in `p`: the move as written if it
   * is legal, else its queen promotion when the text has no promotion
   * letter and that promotion is legal.
   */
  function ResolveUci(p: Position, uci: string): (r: Result<Move, UciError>)
    requires WellFormed(p)
    ensures r.Ok? ==> r.value in LegalMoves(p)
  {
    match UciFields(uci)
    case Err(e) => Err(e)
    case Ok(m) =>
      if m in LegalMoves(p) then Ok(m)
      else if m.promo.None? && m.(promo := Some('q')) in LegalMoves(p) then Ok(m.(promo := Some('q')))
      else Err(IllegalMove)
  }

  lemma ParseDigitChar(r: int)
    requires 0 <= r < 8
    ensures ParseInt([RankChar(r)]) == Some(8 - r)
  {
    var d := RankChar(r);
    assert DigitGroups([d]);
    assert [d][..|[d]| - 1] == [];
    assert DigitsValue([d]) == DigitVal(d);
  }

  /** Reading the fields of a move's UCI text gives the move back. */
  lemma UciFieldsOf(m: Move)
    requires OnBoard(m.fr, m.fc) && OnBoard(m.tr, m.tc) && PromoLetter(m)
    ensures UciFields(UciOf(m)) == Ok(m)
    ensures UciFields(UciOf(m)[..4]) == Ok(m.(promo := None))
  {
    var u := UciOf(m);
    ParseDigitChar(m.fr);
    ParseDigitChar(m.tr);
    assert [u[1]] == [RankChar(m.fr)] && [u[3]] == [RankChar(m.tr)];
    var v := u[..4];
    assert [v[1]] == [RankChar(m.fr)] && [v[3]] == [RankChar(m.tr)];
    if m.promo.Some? {
      assert Lower(m.promo.value) == m.promo.value;
    }
  }

  /** The UCI text of a legal move is read back as that very move. */
  lemma ResolveUciOf(p: Position, m: Move)
    requires WellFormed(p) && m in LegalMoves(p)
    ensures OnBoard(m.fr, m.fc) && OnBoard(m.tr, m.tc)
    ensures ResolveUci(p, UciOf(m)) == Ok(m)
  {
    LegalKind(p, m);
    UciFieldsOf(m);
  }

  /**
   * Four characters naming a pawn's promotion (the move with 'q' is legal,
   * the move without a letter is not) are read as the queen promotion.
   */
  lemma ResolveQueenCompletion(p: Position, m: Move)
    requires WellFormed(p) && m in LegalMoves(p) && m.promo == Some('q')
    requires m.(promo := None) !in LegalMoves(p)
    ensures OnBoard(m.fr, m.fc) && OnBoard(m.tr, m.tc)
    ensures ResolveUci(p, UciOf(m)[..4]) == Ok(m)
  {
    LegalKind(p, m);
    UciFieldsOf(m);
    assert m.(promo := None).(promo := Some('q')) == m;
  }

  /** The check mark `apply_uci` appends to the SAN once the move is made. */
  function CheckMark(q: Position): string
    requires WellFormed(q)
  {
    if InCheck(q, q.turn) then (if LegalMoves(q) == [] then "#" else "+") else ""
  }

  /**
   * The piece `apply_uci` reports as captured: the pawn beside the origin
   * for an en-passant capture, else the occupant of the target square.
   */
  function Captured(p: Position, m: Move): Option<char>
    requires WellFormed(p) && OnBoard(m.fr, m.fc) && OnBoard(m.tr, m.tc)
  {
    if Lower(p.grid[m.fr][m.fc]) == 'p' && IsEpSquare(p, m.tr, m.tc) then
      Some(p.grid[m.fr][EpCol(p.ep)])
    else if p.grid[m.tr][m.tc] != '.' then Some(p.grid[m.tr][m.tc])
    else None
  }

  /** What making a legal move yields: the new position, its SAN with check mark, the captured piece. */
  datatype Played = Played(after: Position, san: string, captured: Option<char>)

  /**
   * The part of `apply_uci` that follows move resolution: the SAN is
   * written against the position before the move, the move is made, and
   * the check mark is read off the position after it.
   */
  function PlayMove(p: Position, m: Move): (r: Played)
    requires WellFormed(p) && m in LegalMoves(p)
    ensures OnBoard(m.fr, m.fc) && OnBoard(m.tr, m.tc) && OnBoardMoves(LegalMoves(p))
    ensures r.after == ApplyRaw(p, m) && WellFormed(r.after)
    ensures !InCheck(r.after, p.turn)
    ensures r.san == BuildSan(p, m, LegalMoves(p)) + CheckMark(r.after)
    ensures r.captured == Captured(p, m)
  {
    LegalMovesSafe(p, p.turn, m);
    LegalOnBoard(p);
    var q := ApplyRaw(p, m);
    Played(q, BuildSan(p, m, LegalMoves(p)) + CheckMark(q), Captured(p, m))
  }

  /**
   * The piece filed in the list of side `side` (`cap_white` for "w"):
   * `apply_uci` files a real piece under the side to move after the move.
   */
  function CapturedBy(pl: Played, side: string): (c: seq<char>)
    ensures |c| <= 1
    ensures c != [] <==> pl.captured.Some? && pl.captured.value != '.' && (pl.after.turn == "w" <==> side == "w")
  {
    if pl.captured.Some? && pl.captured.value != '.' && (pl.after.turn == "w" <==> side == "w") then [pl.captured.value] else []
  }

  /** `pos_history` after one more visit to `key`. */
  function Visit(history: map<string, int>, key: string): (h: map<string, int>)
    ensures Repetitions(h, key) == Repetitions(history, key) + 1
    ensures forall k :: k != key ==> Repetitions(h, k) == Repetitions(history, k)
  {
    history[key := Repetitions(history, key) + 1]
  }

  // ---------------------------------------------------------------- the board object

  class Board {
    var grid: seq<seq<char>>
    var turn: string
    var castling: string
    var ep: string
    var halfmove: int
    var fullmove: int
    var moveHistory: seq<HistoryEntry>
    var posHistory: map<string, int>
    /** `cap_white`: filled after the turn has passed, so it receives what Black captures. */
    var capWhite: seq<char>
    /** `cap_black`: receives what White captures. */
    var capBlack: seq<char>
    var materialCache: Option<(int, int)>

    /** The position the fields hold. */
    function Pos(): Position
      reads this
    {
      Position(grid, turn, castling, ep, halfmove, fullmove)
    }

    /** What every method relies on: a well-formed position and a cache that, when set, is right. */
    predicate Valid()
      reads this
    {
      && WellFormed(Pos())
      && (materialCache.Some? ==> materialCache.value == (MaterialOf(grid, true), MaterialOf(grid, false)))
    }

    /** `__init__`: empty histories, then `_load_fen(START_FEN)`. */
    constructor()
      ensures Valid() && Pos() == StartPosition
      ensures moveHistory == [] && posHistory == map[] && capWhite == [] && capBlack == []
    {
      grid := [];
      turn := "w";
      castling := "KQkq";
      ep := "-";
      halfmove := 0;
      fullmove := 1;
      moveHistory := [];
      posHistory := map[];
      capWhite := [];
      capBlack := [];
      materialCache := None;
      new;
      var ok := LoadFen(StartFen);
      StartFenLoads();
    }

    /**
     * `reset()` runs `__init__` again: the histories are emptied and the
     * fields take the position `_load_fen(START_FEN)` reads.
     */
    method Reset()
      modifies this
      ensures Valid() && Pos() == StartPosition
      ensures moveHistory == [] && posHistory == map[] && capWhite == [] && capBlack == []
    {
      moveHistory, posHistory, capWhite, capBlack, materialCache := [], map[], [], [], None;
      StartFenLoads();
      SetPos(StartPosition);
    }

    /**
     * `_load_fen(fen)`, field by field. Where Python raises (no fields, or
     * a clock that is not an integer) the fields assigned before that point
     * keep their new values and the rest keep their old ones.
     */
    method LoadFen(fen: string) returns (ok: bool)
      modifies this
      ensures ok <==> ChessPosition.LoadFen(fen).Some?
      ensures ok ==> Pos() == ChessPosition.LoadFen(fen).value && materialCache.None?
      ensures !ok ==> materialCache == old(materialCache)
      ensures var parts := Split(fen);
        && (|parts| == 0 ==> grid == [] && turn == old(turn) && castling == old(castling) && ep == old(ep)
                             && halfmove == old(halfmove) && fullmove == old(fullmove))
        && (|parts| > 0 ==> grid == LoadGrid(parts[0]) && turn == FieldOr(parts, 1, "w")
                            && castling == FieldOr(parts, 2, "-") && ep == FieldOr(parts, 3, "-"))
        && (|parts| > 0 && ClockOr(parts, 4, 0).None? ==> halfmove == old(halfmove) && fullmove == old(fullmove))
        && (|parts| > 0 && ClockOr(parts, 4, 0).Some? && ClockOr(parts, 5, 1).None? ==>
              halfmove == ClockOr(parts, 4, 0).value && fullmove == old(fullmove))
      ensures moveHistory == old(moveHistory) && posHistory == old(posHistory)
      ensures capWhite == old(capWhite) && capBlack == old(capBlack)
    {
      var parts := Split(fen);
      if |parts| == 0 {
        grid := [];
        return false;
      }
      ok := LoadParts(parts);
    }

    /** `load_fen` once the text has at least one field: the fields in order, up to the first bad clock. */
    method LoadParts(parts: seq<string>) returns (ok: bool)
      requires |parts| > 0
      modifies this
      ensures var hm, fm := ClockOr(parts, 4, 0), ClockOr(parts, 5, 1);
        && (ok <==> hm.Some? && fm.Some?)
        && grid == LoadGrid(parts[0]) && turn == FieldOr(parts, 1, "w")
        && castling == FieldOr(parts, 2, "-") && ep == FieldOr(parts, 3, "-")
        && halfmove == (if hm.Some? then hm.value else old(halfmove))
        && fullmove == (if ok then fm.value else old(fullmove))
        && materialCache == (if ok then None else old(materialCache))
      ensures moveHistory == old(moveHistory) && posHistory == old(posHistory)
      ensures capWhite == old(capWhite) && capBlack == old(capBlack)
    {
      var g := ParseGrid(parts[0]);
      grid, turn, castling, ep := g, FieldOr(parts, 1, "w"), FieldOr(parts, 2, "-"), FieldOr(parts, 3, "-");
      var hm := ClockOr(parts, 4, 0);
      if hm.None? {
        return false;
      }
      var fm := ClockOr(parts, 5, 1);
      if fm.None? {
        halfmove := hm.value;
        return false;
      }
      halfmove, fullmove, materialCache := hm.value, fm.value, None;
      ok := true;
    }

    /** `to_fen()`: each rank run-length encoded cell by cell, then the six fields. */
    method ToFen() returns (fen: string)
      ensures fen == ChessPosition.ToFen(Pos())
    {
      var rows: seq<string> := [];
      var r := 0;
      while r < |grid|
        invariant 0 <= r <= |grid|
        invariant |rows| == r && forall k :: 0 <= k < r ==> rows[k] == RankFen(grid[k])
      {
        var s := RankText(grid[r]);
        rows := rows + [s];
        r := r + 1;
      }
      assert rows == RankFens(grid);
      var cas := if castling != "" then castling else "-";
      fen := Join(" ", [Join("/", rows), turn, cas, ep, IntToString(halfmove), IntToString(fullmove)]);
    }

    /** `material()`: the cached pair if there is one, else both totals counted cell by cell and cached. */
    method Material() returns (white: int, black: int)
      requires Valid()
      modifies this
      ensures white == MaterialOf(grid, true) && black == MaterialOf(grid, false)
      ensures materialCache == Some((white, black))
      ensures Valid() && Pos() == old(Pos())
      ensures moveHistory == old(moveHistory) && posHistory == old(posHistory)
      ensures capWhite == old(capWhite) && capBlack == old(capBlack)
    {
      if materialCache.Some? {
        return materialCache.value.0, materialCache.value.1;
      }
      var wm, bm := 0, 0;
      var r := 0;
      while r < |grid|
        invariant 0 <= r <= |grid|
        invariant wm == SumValues(Men(grid[..r], true)) && bm == SumValues(Men(grid[..r], false))
        modifies {}
      {
        var w, b := RowMaterial(grid[r]);
        wm, bm := wm + w, bm + b;
        MenStep(grid, r, true);
        MenStep(grid, r, false);
        r := r + 1;
      }
      assert grid[..r] == grid;
      materialCache := Some((wm, bm));
      return wm, bm;
    }

    /**
     * `apply_uci(uci)`: on an error nothing changes; otherwise the resolved
     * move is made as `PlayMove` states and recorded as `Commit` states.
     */
    method ApplyUci(uci: string) returns (r: Result<(string, Option<char>), UciError>)
      requires Valid()
      modifies this
      ensures Valid()
      ensures r.Err? <==> ResolveUci(old(Pos()), uci).Err?
      ensures r.Err? ==> r.error == ResolveUci(old(Pos()), uci).error
      ensures r.Err? ==> (Pos() == old(Pos()) && materialCache == old(materialCache)
        && moveHistory == old(moveHistory) && posHistory == old(posHistory)
        && capWhite == old(capWhite) && capBlack == old(capBlack))
      ensures r.Ok? ==>
        var pl := PlayMove(old(Pos()), ResolveUci(old(Pos()), uci).value);
        && Pos() == pl.after
        && r.value == (pl.san, pl.captured)
        && moveHistory == old(moveHistory) + [HistoryEntry(uci, pl.san, ChessPosition.ToFen(pl.after))]
        && posHistory == Visit(old(posHistory), PosKey(pl.after))
        && materialCache.None?
        && capWhite == old(capWhite) + CapturedBy(pl, "w")
        && capBlack == old(capBlack) + CapturedBy(pl, "b")
    {
      var resolved := ResolveUci(Pos(), uci);
      if resolved.Err? {
        return Err(resolved.error);
      }
      var pl := PlayMove(Pos(), resolved.value);
      Commit(uci, pl);
      return Ok((pl.san, pl.captured));
    }

    /** The six assignments that copy the fields of `_apply_raw`'s result into the board. */
    method SetPos(q: Position)
      modifies this
      ensures Pos() == q
      ensures moveHistory == old(moveHistory) && posHistory == old(posHistory)
      ensures capWhite == old(capWhite) && capBlack == old(capBlack) && materialCache == old(materialCache)
    {
      grid, castling, ep, halfmove, fullmove, turn := q.grid, q.castling, q.ep, q.halfmove, q.fullmove, q.turn;
    }

    /** A captured piece other than '.' goes to `cap_white` when White is to move, else to `cap_black`. */
    method FileCapture(cap: Option<char>)
      modifies this
      ensures Pos() == old(Pos()) && materialCache == old(materialCache)
      ensures moveHistory == old(moveHistory) && posHistory == old(posHistory)
      ensures capWhite == old(capWhite) + (if cap.Some? && cap.value != '.' && turn == "w" then [cap.value] else [])
      ensures capBlack == old(capBlack) + (if cap.Some? && cap.value != '.' && turn != "w" then [cap.value] else [])
    {
      if cap.Some? && cap.value != '.' {
        if turn == "w" {
          capWhite := capWhite + [cap.value];
        } else {
          capBlack := capBlack + [cap.value];
        }
      }
    }

    /**
     * The rest of `apply_uci` once the move is made on paper (`pl`): the
     * fields take the new position, the cache is dropped, a real captured
     * piece is filed under the side now to move, and the history entry
     * and the repetition visit are recorded.
     */
    method Commit(uci: string, pl: Played)
      requires WellFormed(pl.after)
      modifies this
      ensures Valid()
      ensures Pos() == pl.after
      ensures moveHistory == old(moveHistory) + [HistoryEntry(uci, pl.san, ChessPosition.ToFen(pl.after))]
      ensures posHistory == Visit(old(posHistory), PosKey(pl.after))
      ensures materialCache.None?
      ensures capWhite == old(capWhite) + CapturedBy(pl, "w")
      ensures capBlack == old(capBlack) + CapturedBy(pl, "b")
    {
      var q := pl.after;
      SetPos(q);
      materialCache := None;
      FileCapture(pl.captured);
      var fenAfter := ToFen();
      moveHistory := moveHistory + [HistoryEntry(uci, pl.san, fenAfter)];
      posHistory := Visit(posHistory, PosKey(q));
    }

    /** `uci_moves_list()`: the UCI text of every move played, in order. */
    function UciMovesList(): (ms: seq<string>)
      reads this
      ensures |ms| == |moveHistory| && forall i :: 0 <= i < |ms| ==> ms[i] == moveHistory[i].uci
    {
      UciOfEntries(moveHistory)
    }

    /** `uci_moves_str()`: the same moves separated by spaces. */
    function UciMovesStr(): string
      reads this
    {
      Join(" ", UciMovesList())
    }

    /** `game_result()` for the board's position and repetition counts. */
    function Result(): Outcome
      reads this
      requires Valid()
    {
      GameResult(Pos(), posHistory)
    }
  }

  /** The board rows of a FEN placement, one `/`-separated rank at a time (the outer loop of `_load_fen`). */
  method ParseGrid(placement: string) returns (grid: seq<seq<char>>)
    ensures grid == LoadGrid(placement)
  {
    var rowTexts := SplitOn(placement, '/');
    grid := [];
    var i := 0;
    while i < |rowTexts|
      invariant 0 <= i <= |rowTexts|
      invariant |grid| == i && forall k :: 0 <= k < i ==> grid[k] == LoadRank(rowTexts[k])
    {
      var row := ParseRank(rowTexts[i]);
      grid := grid + [row];
      i := i + 1;
    }
  }

  /** One rank of a FEN placement, expanded character by character (the inner loop of `load_fen`). */
  method ParseRank(text: string) returns (row: seq<char>)
    ensures row == LoadRank(text)
  {
    row := [];
    var j := 0;
    while j < |text|
      invariant 0 <= j <= |text|
      invariant row == LoadRank(text[..j])
    {
      LoadRankAppend(text[..j], [text[j]]);
      assert LoadRank([text[j]]) == (if IsDigit(text[j]) then Dots(DigitVal(text[j])) else [text[j]]) + LoadRank([]);
      assert text[..j + 1] == text[..j] + [text[j]];
      if IsDigit(text[j]) {
        row := row + Dots(DigitVal(text[j]));
      } else {
        row := row + [text[j]];
      }
      j := j + 1;
    }
    assert text[..|text|] == text;
  }

  /** The UCI field of each history entry, in order. */
  function UciOfEntries(h: seq<HistoryEntry>): (ms: seq<string>)
    ensures |ms| == |h| && forall i :: 0 <= i < |ms| ==> ms[i] == h[i].uci
  {
    if h == [] then [] else [h[0].uci] + UciOfEntries(h[1..])
  }

  /** One rank of `to_fen`: the pieces, with each run of empty squares written as its length. */
  method RankText(row: seq<char>) returns (s: string)
    ensures s == RankFen(row)
  {
    var e: nat := 0;
    s := "";
    var c := 0;
    while c < |row|
      invariant 0 <= c <= |row|
      invariant s + RankFenFrom(row[c..], e) == RankFen(row)
    {
      RankFenStep(row, c, e);
      if row[c] == '.' {
        e := e + 1;
      } else {
        RankPiece(s, EmptyRun(e), row[c], RankFenFrom(row[c + 1..], 0));
        s := s + EmptyRun(e) + [row[c]];
        e := 0;
      }
      c := c + 1;
    }
    assert row[c..] == [];
    s := s + EmptyRun(e);
  }

  /** The text written so far, then a run and a piece, then the rest of the rank. */
  lemma RankPiece(s: string, run: string, piece: char, rest: string)
    ensures s + (run + [piece] + rest) == (s + run + [piece]) + rest
  {
  }

  /** The inner loop of `material()`: both sides' totals on one rank. */
  method RowMaterial(row: seq<char>) returns (white: int, black: int)
    ensures white == SumValues(RowMen(row, true)) && black == SumValues(RowMen(row, false))
  {
    white, black := 0, 0;
    var c := 0;
    while c < |row|
      invariant 0 <= c <= |row|
      invariant white == SumValues(RowMen(row[..c], true)) && black == SumValues(RowMen(row[..c], false))
    {
      var cell := row[c];
      RowMenStep(row, c, true);
      RowMenStep(row, c, false);
      if cell != '.' {
        var v := PieceValue(Lower(cell));
        if IsUpper(cell) {
          white := white + v;
        } else {
          black := black + v;
        }
      }
      c := c + 1;
    }
    assert row[..c] == row;
  }

  lemma RankFenStep(row: seq<char>, c: int, e: nat)
    requires 0 <= c < |row|
    ensures RankFenFrom(row[c..], e) == if row[c] == '.' then RankFenFrom(row[c + 1..], e + 1)
      else EmptyRun(e) + [row[c]] + RankFenFrom(row[c + 1..], 0)
  {
    assert row[c..][1..] == row[c + 1..];
  }

  lemma RowMenStep(row: seq<char>, c: int, white: bool)
    requires 0 <= c < |row|
    ensures SumValues(RowMen(row[..c + 1], white)) == SumValues(RowMen(row[..c], white))
      + (if row[c] != '.' && IsUpper(row[c]) == white then PieceValue(Lower(row[c])) else 0)
  {
    assert row[..c + 1] == row[..c] + [row[c]];
    RowMenAppend(row[..c], [row[c]], white);
    var last := RowMen([row[c]], white);
    assert last == (if row[c] != '.' && IsUpper(row[c]) == white then [Lower(row[c])] else []) + RowMen([], white);
    SumValuesAppend(RowMen(row[..c], white), last);
  }

  lemma MenStep(grid: seq<seq<char>>, r: int, white: bool)
    requires 0 <= r < |grid|
    ensures SumValues(Men(grid[..r + 1], white)) == SumValues(Men(grid[..r], white)) + SumValues(RowMen(grid[r], white))
  {
    var one := [grid[r]];
    assert grid[..r + 1] == grid[..r] + one;
    MenAppend(grid[..r], one, white);
    assert one[1..] == [];
    assert Men(one, white) == RowMen(grid[r], white);
    SumValuesAppend(Men(grid[..r], white), RowMen(grid[r], white));
  }

  /**
   * The engine is sent `uci_moves_str()`; reading it back with `split()`
   * gives the move list, provided each entry is a space-free token.
   */
  lemma UciMovesRoundTrip(b: Board)
    requires forall i :: 0 <= i < |b.moveHistory| ==> b.moveHistory[i].uci != [] && NoSpace(b.moveHistory[i].uci)
    ensures Split(b.UciMovesStr()) == b.UciMovesList()
  {
    var ms := b.UciMovesList();
    assert forall i :: 0 <= i < |ms| ==> ms[i] != [] && NoSpace(ms[i]);
    SplitJoin(ms);
  }
}
