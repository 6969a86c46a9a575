/**
 * The move rules of board.py: attack detection (`is_attacked`), king search
 * and check (`find_king`, `in_check`), per-piece pseudo-legal moves
 * (`_pseudo`), move application on a copy (`_apply_raw`) and the legal-move
 * filter (`legal_moves`). Each is a function of a `Position` value: the source
 * only reads the live board here, or writes a fresh copy of it.
 *
 * A side is the Python string "w" or anything else; every test in the source
 * is `== 'w'` or `== 'b'`, and the model keeps exactly those tests.
 */
module ChessRules {
  import opened Common
  import opened PyStr
  import opened ChessPosition

  /** A move as the 5-tuple `(fr, fc, tr, tc, promo)`. */
  datatype Move = Move(fr: int, fc: int, tr: int, tc: int, promo: Option<char>)

  // ---------------------------------------------------------------- direction tables

  /** constants.py ROOK_D, BISHOP_D, QUEEN_D, KING_D and KNIGHT_D. */
  const RookDirs: seq<(int, int)> := [(1, 0), (-1, 0), (0, 1), (0, -1)]
  const BishopDirs: seq<(int, int)> := [(1, 1), (1, -1), (-1, 1), (-1, -1)]
  const QueenDirs: seq<(int, int)> := RookDirs + BishopDirs
  const KingDirs: seq<(int, int)> := RookDirs + BishopDirs
  const KnightDirs: seq<(int, int)> :=
    [(2, 1), (2, -1), (-2, 1), (-2, -1), (1, 2), (1, -2), (-1, 2), (-1, -2)]

  /** A unit step of a sliding piece: each coordinate in -1..1, not both zero. */
  predicate UnitStep(d: (int, int)) {
    -1 <= d.0 <= 1 && -1 <= d.1 <= 1 && d != (0, 0)
  }

  predicate UnitSteps(dirs: seq<(int, int)>) {
    forall i :: 0 <= i < |dirs| ==> UnitStep(dirs[i])
  }

  // ---------------------------------------------------------------- piece helpers

  /** `same(p1, p2)`: both white or both black. */
  predicate Same(a: char, b: char) {
    (IsWhite(a) && IsWhite(b)) || (IsBlack(a) && IsBlack(b))
  }

  /** `enemy(p, turn)`: a piece of the side that is not `turn`. */
  predicate Enemy(ch: char, turn: string) {
    if turn == "w" then IsBlack(ch) else IsWhite(ch)
  }

  /** `has(p)` inside `is_attacked`: a piece of side `side`. */
  predicate Has(ch: char, side: string) {
    if side == "w" then IsWhite(ch) else IsBlack(ch)
  }

  /** The side a piece letter belongs to (`'w' if piece.isupper() else 'b'`). */
  function SideOf(piece: char): string {
    if IsUpper(piece) then "w" else "b"
  }

  /** The other side (`'b' if t == 'w' else 'w'`). */
  function Opponent(t: string): string {
    if t == "w" then "b" else "w"
  }

  function Cell(p: Position, r: int, c: int): char
    requires WellFormed(p) && OnBoard(r, c)
  {
    p.grid[r][c]
  }

  /** Row of the en-passant square (`8 - int(ep[1])`). */
  function EpRow(ep: string): int
    requires ep != "-" && ValidEp(ep)
  {
    8 - DigitVal(ep[1])
  }

  /** Column of the en-passant square (`ord(ep[0]) - ord('a')`). */
  function EpCol(ep: string): int
    requires ep != "-" && ValidEp(ep)
  {
    ep[0] as int - 'a' as int
  }

  /** The square (r, c) is the recorded en-passant square. */
  predicate IsEpSquare(p: Position, r: int, c: int)
    requires WellFormed(p)
  {
    p.ep != "-" && r == EpRow(p.ep) && c == EpCol(p.ep)
  }

  // ---------------------------------------------------------------- is_attacked

  /** Steps left along a ray before it leaves the board. */
  function RayMeasure(r: int, c: int, d: (int, int)): nat {
    if d.0 > 0 then (if r < 8 then 8 - r else 0)
    else if d.0 < 0 then (if r >= 0 then r + 1 else 0)
    else if d.1 > 0 then (if c < 8 then 8 - c else 0)
    else (if c >= 0 then c + 1 else 0)
  }

  /** The first occupied cell at or beyond (r, c) walking in direction `d`. */
  function FirstOnRay(p: Position, r: int, c: int, d: (int, int)): (o: Option<(int, int)>)
    requires WellFormed(p) && UnitStep(d)
    ensures o.Some? ==> OnBoard(o.value.0, o.value.1) && p.grid[o.value.0][o.value.1] != '.'
    decreases RayMeasure(r, c, d)
  {
    if !OnBoard(r, c) then None
    else if p.grid[r][c] != '.' then Some((r, c))
    else FirstOnRay(p, r + d.0, c + d.1, d)
  }

  /** Some step of `dirs` from (r, c) lands on a piece of side `side` whose lower-case letter is `kind`. */
  predicate StepAttack(p: Position, r: int, c: int, side: string, dirs: seq<(int, int)>, kind: char)
    requires WellFormed(p)
  {
    exists i :: 0 <= i < |dirs| && OnBoard(r + dirs[i].0, c + dirs[i].1)
      && Lower(p.grid[r + dirs[i].0][c + dirs[i].1]) == kind
      && Has(p.grid[r + dirs[i].0][c + dirs[i].1], side)
  }

  /** Some ray of `dirs` from (r, c) first meets a piece of side `side` whose letter is in `kinds`. */
  predicate RayAttack(p: Position, r: int, c: int, side: string, dirs: seq<(int, int)>, kinds: string)
    requires WellFormed(p) && UnitSteps(dirs)
  {
    exists i :: 0 <= i < |dirs| && RayAttackAlong(p, r, c, side, dirs[i], kinds)
  }

  predicate RayAttackAlong(p: Position, r: int, c: int, side: string, d: (int, int), kinds: string)
    requires WellFormed(p) && UnitStep(d)
  {
    var o := FirstOnRay(p, r + d.0, c + d.1, d);
    o.Some? && Lower(p.grid[o.value.0][o.value.1]) in kinds && Has(p.grid[o.value.0][o.value.1], side)
  }

  /** The two squares from which a pawn of side `side` attacks forward. */
  function PawnAttackDirs(side: string): seq<(int, int)> {
    if side == "w" then [(1, -1), (1, 1)] else [(-1, -1), (-1, 1)]
  }

  /** `is_attacked(r, c, side)`: a knight, slider, king or pawn of side `side` hits (r, c). */
  predicate IsAttacked(p: Position, r: int, c: int, side: string)
    requires WellFormed(p)
  {
    || StepAttack(p, r, c, side, KnightDirs, 'n')
    || RayAttack(p, r, c, side, RookDirs, "qr")
    || RayAttack(p, r, c, side, BishopDirs, "qb")
    || StepAttack(p, r, c, side, KingDirs, 'k')
    || StepAttack(p, r, c, side, PawnAttackDirs(side), 'p')
  }

  // ---------------------------------------------------------------- find_king / in_check

  /** The king letter of side `t`. */
  function KingOf(t: string): char {
    if t == "w" then 'K' else 'k'
  }

  /** Square (r1, c1) comes before (r2, c2) in reading order (rank 8 first, file a first). */
  predicate Before(r1: int, c1: int, r2: int, c2: int) {
    r1 < r2 || (r1 == r2 && c1 < c2)
  }

  /** Reading-order search for `ch` from square (r, c) on. */
  function FindFrom(p: Position, ch: char, r: int, c: int): (o: Option<(int, int)>)
    requires WellFormed(p) && 0 <= r <= 8 && 0 <= c < 8
    ensures o.Some? ==> (OnBoard(o.value.0, o.value.1) && p.grid[o.value.0][o.value.1] == ch
      && !Before(o.value.0, o.value.1, r, c))
    ensures forall r', c' ::
      (OnBoard(r', c') && !Before(r', c', r, c) && (o.Some? ==> Before(r', c', o.value.0, o.value.1)))
      ==> p.grid[r'][c'] != ch
    decreases 8 - r, 8 - c
  {
    if r == 8 then None
    else if p.grid[r][c] == ch then Some((r, c))
    else if c == 7 then FindFrom(p, ch, r + 1, 0)
    else FindFrom(p, ch, r, c + 1)
  }

  /** `find_king(t)`: the first square in reading order holding `t`'s king. */
  function FindKing(p: Position, t: string): (o: Option<(int, int)>)
    requires WellFormed(p)
    ensures o.Some? ==> OnBoard(o.value.0, o.value.1) && p.grid[o.value.0][o.value.1] == KingOf(t)
    ensures forall r, c ::
      (OnBoard(r, c) && (o.Some? ==> Before(r, c, o.value.0, o.value.1))) ==> p.grid[r][c] != KingOf(t)
  {
    FindFrom(p, KingOf(t), 0, 0)
  }

  /** `in_check(t)`: `t`'s king exists and is attacked by the other side. */
  predicate InCheck(p: Position, t: string)
    requires WellFormed(p)
  {
    var k := FindKing(p, t);
    k.Some? && IsAttacked(p, k.value.0, k.value.1, Opponent(t))
  }

  // ---------------------------------------------------------------- _pseudo

  /** The moves of a piece start on its square and land on the board. */
  predicate MovesFrom(ms: seq<Move>, r: int, c: int) {
    forall i :: 0 <= i < |ms| ==> ms[i].fr == r && ms[i].fc == c && OnBoard(ms[i].tr, ms[i].tc)
  }

  /** A pawn reaching the last rank, in the order 'q', 'r', 'b', 'n'. */
  function Promotions(r: int, c: int, nr: int, nc: int): (ms: seq<Move>)
    ensures |ms| == 4
  {
    [Move(r, c, nr, nc, Some('q')), Move(r, c, nr, nc, Some('r')),
     Move(r, c, nr, nc, Some('b')), Move(r, c, nr, nc, Some('n'))]
  }

  /** A pawn's step to (nr, nc): the four promotions on the last rank, one plain move elsewhere. */
  function PawnStep(r: int, c: int, nr: int, nc: int, promoRow: int): seq<Move> {
    if nr == promoRow then Promotions(r, c, nr, nc) else [Move(r, c, nr, nc, None)]
  }

  /** The direction a pawn of this letter's side moves in: up the board for White. */
  function Forward(piece: char): int {
    if SideOf(piece) == "w" then -1 else 1
  }

  /**
   * The geometry of a pawn move from (r, c): one step forward onto an empty
   * square, two steps over an empty square onto an empty square, or one step
   * diagonally onto a piece or the en-passant square; a promotion letter is
   * one of "qrbn", and there is one exactly when the pawn reaches the last rank.
   */
  predicate PawnShape(p: Position, r: int, c: int, m: Move)
    requires WellFormed(p) && OnBoard(r, c)
  {
    var fwd := Forward(p.grid[r][c]);
    && OnBoard(m.tr, m.tc)
    && (m.promo.None? || m.promo.value in "qrbn")
    && (m.promo.Some? <==> m.tr == (if fwd == -1 then 0 else 7))
    && (|| (m.tc == c && m.tr == r + fwd && p.grid[m.tr][m.tc] == '.')
        || (m.tc == c && m.tr == r + 2 * fwd && p.grid[r + fwd][c] == '.' && p.grid[m.tr][m.tc] == '.')
        || ((m.tc == c - 1 || m.tc == c + 1) && m.tr == r + fwd
            && (p.grid[m.tr][m.tc] != '.' || IsEpSquare(p, m.tr, m.tc))))
  }

  /** The pawn's diagonal in column offset `dc`: onto an enemy piece or the en-passant square. */
  function PawnCapture(p: Position, r: int, c: int, dc: int): (ms: seq<Move>)
    requires WellFormed(p) && OnBoard(r, c) && (dc == -1 || dc == 1)
    ensures MovesFrom(ms, r, c)
    ensures forall i :: 0 <= i < |ms| ==> PawnShape(p, r, c, ms[i])
  {
    var turn := SideOf(p.grid[r][c]);
    var fwd := if turn == "w" then -1 else 1;
    var nr, nc := r + fwd, c + dc;
    if OnBoard(nr, nc) && (Enemy(p.grid[nr][nc], turn) || IsEpSquare(p, nr, nc)) then
      PawnStep(r, c, nr, nc, if turn == "w" then 0 else 7)
    else []
  }

  /** Pawn moves: forward one (two from the start row), then the two captures. */
  function PawnMoves(p: Position, r: int, c: int): (ms: seq<Move>)
    requires WellFormed(p) && OnBoard(r, c)
    ensures MovesFrom(ms, r, c)
    ensures forall i :: 0 <= i < |ms| ==> PawnShape(p, r, c, ms[i])
  {
    PawnForward(p, r, c) + PawnCapture(p, r, c, -1) + PawnCapture(p, r, c, 1)
  }

  /** The pawn's moves straight ahead: one square, or two from the start row, onto empty squares. */
  function PawnForward(p: Position, r: int, c: int): (ms: seq<Move>)
    requires WellFormed(p) && OnBoard(r, c)
    ensures MovesFrom(ms, r, c)
    ensures forall i :: 0 <= i < |ms| ==> PawnShape(p, r, c, ms[i])
  {
    var turn := SideOf(p.grid[r][c]);
    var fwd := if turn == "w" then -1 else 1;
    var startRow := if turn == "w" then 6 else 1;
    var promoRow := if turn == "w" then 0 else 7;
    var nr := r + fwd;
    var double := if r == startRow && p.grid[r + 2 * fwd][c] == '.' then [Move(r, c, r + 2 * fwd, c, None)] else [];
    if OnBoard(nr, c) && p.grid[nr][c] == '.' then
      (if nr == promoRow then Promotions(r, c, nr, c) else [Move(r, c, nr, c, None)] + double)
    else []
  }

  /** Knight and king steps: every on-board target not holding a piece of the mover's colour. */
  function StepMoves(p: Position, r: int, c: int, dirs: seq<(int, int)>): (ms: seq<Move>)
    requires WellFormed(p) && OnBoard(r, c)
    ensures MovesFrom(ms, r, c)
    ensures forall i :: 0 <= i < |ms| ==> ms[i].promo.None?
    ensures forall i :: 0 <= i < |ms| ==> !Same(p.grid[r][c], p.grid[ms[i].tr][ms[i].tc])
    ensures UnitSteps(dirs) ==> forall i :: 0 <= i < |ms| ==> -1 <= ms[i].tc - c <= 1
  {
    if dirs == [] then []
    else
      var nr, nc := r + dirs[0].0, c + dirs[0].1;
      (if OnBoard(nr, nc) && !Same(p.grid[r][c], p.grid[nr][nc]) then [Move(r, c, nr, nc, None)] else [])
        + StepMoves(p, r, c, dirs[1..])
  }

  /** One ray of a sliding piece from (r, c), examining (nr, nc) onward. */
  function SlideRay(p: Position, r: int, c: int, nr: int, nc: int, d: (int, int)): (ms: seq<Move>)
    requires WellFormed(p) && OnBoard(r, c) && UnitStep(d)
    ensures MovesFrom(ms, r, c)
    ensures forall i :: 0 <= i < |ms| ==> ms[i].promo.None?
    decreases RayMeasure(nr, nc, d)
  {
    if !OnBoard(nr, nc) then []
    else if p.grid[nr][nc] == '.' then [Move(r, c, nr, nc, None)] + SlideRay(p, r, c, nr + d.0, nc + d.1, d)
    else if Enemy(p.grid[nr][nc], SideOf(p.grid[r][c])) then [Move(r, c, nr, nc, None)]
    else []
  }

  function SlideMoves(p: Position, r: int, c: int, dirs: seq<(int, int)>): (ms: seq<Move>)
    requires WellFormed(p) && OnBoard(r, c) && UnitSteps(dirs)
    ensures MovesFrom(ms, r, c)
    ensures forall i :: 0 <= i < |ms| ==> ms[i].promo.None?
  {
    if dirs == [] then []
    else SlideRay(p, r, c, r + dirs[0].0, c + dirs[0].1, dirs[0]) + SlideMoves(p, r, c, dirs[1..])
  }

  /** Kingside castling conditions: the flag, f and g empty, the rook on h, e f g not attacked. */
  predicate KingsideOk(p: Position, kr: int, turn: string)
    requires WellFormed(p) && (kr == 0 || kr == 7)
  {
    var opp := Opponent(turn);
    var g := p.grid;
    && (if turn == "w" then 'K' else 'k') in p.castling
    && g[kr][5] == '.' && g[kr][6] == '.' && g[kr][7] == (if turn == "w" then 'R' else 'r')
    && !IsAttacked(p, kr, 5, opp) && !IsAttacked(p, kr, 6, opp)
  }

  /** Queenside castling conditions: the flag, b c d empty, the rook on a, c d e not attacked. */
  predicate QueensideOk(p: Position, kr: int, turn: string)
    requires WellFormed(p) && (kr == 0 || kr == 7)
  {
    var opp := Opponent(turn);
    var g := p.grid;
    && (if turn == "w" then 'Q' else 'q') in p.castling
    && g[kr][3] == '.' && g[kr][2] == '.' && g[kr][1] == '.' && g[kr][0] == (if turn == "w" then 'R' else 'r')
    && !IsAttacked(p, kr, 3, opp) && !IsAttacked(p, kr, 2, opp)
  }

  /** Castling from the king's home square: kingside, then queenside. */
  function CastleMoves(p: Position, r: int, c: int): (ms: seq<Move>)
    requires WellFormed(p) && OnBoard(r, c)
    ensures MovesFrom(ms, r, c)
    ensures forall i :: 0 <= i < |ms| ==> ms[i].promo.None?
    ensures forall i :: 0 <= i < |ms| ==> ms[i].fc == 4 && (ms[i].tc == 6 || ms[i].tc == 2) && ms[i].tr == r
    ensures ms != [] ==> r == (if SideOf(p.grid[r][c]) == "w" then 7 else 0)
  {
    var turn := SideOf(p.grid[r][c]);
    var kr := if turn == "w" then 7 else 0;
    if r == kr && c == 4 && !IsAttacked(p, kr, 4, Opponent(turn)) then
      (if KingsideOk(p, kr, turn) then [Move(r, c, kr, 6, None)] else [])
        + (if QueensideOk(p, kr, turn) then [Move(r, c, kr, 2, None)] else [])
    else []
  }

  lemma DirTables()
    ensures UnitSteps(RookDirs) && UnitSteps(BishopDirs) && UnitSteps(QueenDirs) && UnitSteps(KingDirs)
  {
  }

  /**
   * `_pseudo(r, c)`: the pseudo-legal moves of the piece on (r, c), in the
   * source's order. Every move starts on (r, c), lands on the board, and only
   * a pawn promotes.
   */
  function Pseudo(p: Position, r: int, c: int): (ms: seq<Move>)
    requires WellFormed(p) && OnBoard(r, c)
    ensures MovesFrom(ms, r, c)
    ensures forall i :: 0 <= i < |ms| ==> ms[i].promo.Some? ==> Lower(p.grid[r][c]) == 'p'
    ensures p.grid[r][c] == '.' ==> ms == []
    ensures ms != [] ==> Lower(p.grid[r][c]) in "pnbrqk"
    ensures Lower(p.grid[r][c]) == 'p' ==> forall i :: 0 <= i < |ms| ==> PawnShape(p, r, c, ms[i])
    ensures Lower(p.grid[r][c]) == 'k' ==> forall i :: 0 <= i < |ms| ==>
      -1 <= ms[i].tc - c <= 1
      || (c == 4 && (ms[i].tc == 6 || ms[i].tc == 2) && ms[i].tr == r
          && r == (if SideOf(p.grid[r][c]) == "w" then 7 else 0))
  {
    DirTables();
    var piece := p.grid[r][c];
    if piece == '.' then []
    else
      var k := Lower(piece);
      if k == 'p' then PawnMoves(p, r, c)
      else if k == 'n' then StepMoves(p, r, c, KnightDirs)
      else if k == 'b' then SlideMoves(p, r, c, BishopDirs)
      else if k == 'r' then SlideMoves(p, r, c, RookDirs)
      else if k == 'q' then SlideMoves(p, r, c, QueenDirs)
      else if k == 'k' then StepMoves(p, r, c, KingDirs) + CastleMoves(p, r, c)
      else []
  }

  // ---------------------------------------------------------------- _apply_raw

  /** The grid with one cell replaced. */
  function SetCell(g: seq<seq<char>>, r: int, c: int, v: char): (h: seq<seq<char>>)
    requires |g| == 8 && (forall i :: 0 <= i < 8 ==> |g[i]| == 8) && OnBoard(r, c)
    ensures |h| == 8 && (forall i :: 0 <= i < 8 ==> |h[i]| == 8)
    ensures forall i, j :: 0 <= i < 8 && 0 <= j < 8 ==> h[i][j] == (if i == r && j == c then v else g[i][j])
  {
    g[r := g[r][c := v]]
  }

  /** `list.remove(ch)`: the string without its first `ch`. */
  function RemoveFirst(s: string, ch: char): (r: string)
    requires ch in s
    ensures multiset(r) == multiset(s) - multiset{ch}
  {
    if s[0] == ch then
      assert s == [s[0]] + s[1..];
      s[1..]
    else
      assert s == [s[0]] + s[1..];
      [s[0]] + RemoveFirst(s[1..], ch)
  }

  /** The castling flag of a corner square, if (r, c) is one. */
  function CornerFlag(r: int, c: int): Option<char> {
    if r == 7 && c == 7 then Some('K')
    else if r == 7 && c == 0 then Some('Q')
    else if r == 0 && c == 7 then Some('k')
    else if r == 0 && c == 0 then Some('q')
    else None
  }

  /** Drop the flag of corner (r, c), once, when it is present. */
  function DropCorner(cas: string, r: int, c: int): (out: string)
    ensures multiset(out) <= multiset(cas)
    ensures CornerFlag(r, c).Some? && CornerFlag(r, c).value in cas ==>
      multiset(out) == multiset(cas) - multiset{CornerFlag(r, c).value}
    ensures CornerFlag(r, c).None? || CornerFlag(r, c).value !in cas ==> out == cas
  {
    var f := CornerFlag(r, c);
    if f.Some? && f.value in cas then RemoveFirst(cas, f.value) else cas
  }

  /** The castling flags left after a move of a piece of kind `k` (lower case) on `turn`'s turn. */
  function FlagsAfter(cas: string, k: char, turn: string, m: Move): string {
    DropCorner(MoverFlags(cas, k, turn, m), m.tr, m.tc)
  }

  /** The flags left once the moving king or rook has given up its own. */
  function MoverFlags(cas: string, k: char, turn: string, m: Move): string {
    var c0 := RemoveChar(cas, '-');
    var c1 := if k == 'k' then (if turn == "w" then RemoveChar(RemoveChar(c0, 'K'), 'Q')
                                else RemoveChar(RemoveChar(c0, 'k'), 'q')) else c0;
    if k == 'r' then DropCorner(c1, m.fr, m.fc) else c1
  }

  /** The castling field after the move: the remaining flags, or "-" when none remain. */
  function UpdateCastling(cas: string, k: char, turn: string, m: Move): string {
    var f := FlagsAfter(cas, k, turn, m);
    if f == "" then "-" else f
  }

  /** The en-passant field after a move: the skipped square of a two-square pawn push, else "-". */
  function NextEp(k: char, m: Move): (ep: string)
    requires OnBoard(m.fr, m.fc) && OnBoard(m.tr, m.tc)
    ensures ValidEp(ep)
    ensures if k == 'p' && (m.fr - m.tr == 2 || m.tr - m.fr == 2)
            then ep != "-" && EpRow(ep) == (m.fr + m.tr) / 2 && EpCol(ep) == m.fc
            else ep == "-"
  {
    if k == 'p' && (m.fr - m.tr == 2 || m.tr - m.fr == 2) then SquareName((m.fr + m.tr) / 2, m.fc)
    else "-"
  }

  /**
   * The first half of `_apply_raw`: an en-passant capture clears the
   * captured pawn, and castling moves the rook; no other cell changes.
   */
  function SideEffects(p: Position, m: Move): (g: seq<seq<char>>)
    requires WellFormed(p) && OnBoard(m.fr, m.fc) && OnBoard(m.tr, m.tc)
    ensures |g| == 8 && (forall i :: 0 <= i < 8 ==> |g[i]| == 8)
    ensures forall i, j ::
      (OnBoard(i, j)
       && !(Lower(p.grid[m.fr][m.fc]) == 'p' && IsEpSquare(p, m.tr, m.tc) && i == m.fr && j == EpCol(p.ep))
       && !(Lower(p.grid[m.fr][m.fc]) == 'k' && m.fc == 4 && (m.tc == 6 || m.tc == 2) && i == m.fr
            && (j == 7 || j == 5 || j == 0 || j == 3)))
      ==> g[i][j] == p.grid[i][j]
    ensures Lower(p.grid[m.fr][m.fc]) == 'p' && IsEpSquare(p, m.tr, m.tc) ==> g[m.fr][EpCol(p.ep)] == '.'
    ensures Lower(p.grid[m.fr][m.fc]) == 'k' && m.fc == 4 && m.tc == 6 ==>
      g[m.fr][7] == '.' && g[m.fr][5] == (if p.turn == "w" then 'R' else 'r')
    ensures Lower(p.grid[m.fr][m.fc]) == 'k' && m.fc == 4 && m.tc == 2 ==>
      g[m.fr][0] == '.' && g[m.fr][3] == (if p.turn == "w" then 'R' else 'r')
  {
    var g0 := p.grid;
    var k := Lower(g0[m.fr][m.fc]);
    var g1 := if k == 'p' && IsEpSquare(p, m.tr, m.tc) then SetCell(g0, m.fr, EpCol(p.ep), '.') else g0;
    var rook := if p.turn == "w" then 'R' else 'r';
    if k == 'k' && m.fc == 4 && m.tc == 6 then SetCell(SetCell(g1, m.fr, 7, '.'), m.fr, 5, rook)
    else if k == 'k' && m.fc == 4 && m.tc == 2 then SetCell(SetCell(g1, m.fr, 0, '.'), m.fr, 3, rook)
    else g1
  }

  /**
   * The board part of `_apply_raw`: en-passant removal, the castling rook,
   * the move itself, promotion. The origin empties, the target receives the
   * piece (or its promotion: the chosen letter, or a queen for a pawn reaching
   * the last rank without one), the pawn taken en passant is removed, the
   * castling rook moves from its corner to beside the king, and no other
   * cell changes.
   */
  function MovedGrid(p: Position, m: Move): (g: seq<seq<char>>)
    requires WellFormed(p) && OnBoard(m.fr, m.fc) && OnBoard(m.tr, m.tc)
    ensures |g| == 8 && (forall i :: 0 <= i < 8 ==> |g[i]| == 8)
    ensures (m.fr, m.fc) != (m.tr, m.tc) ==> g[m.fr][m.fc] == '.'
    ensures g[m.tr][m.tc] ==
      (if m.promo.Some? then (if p.turn == "w" then Upper(m.promo.value) else Lower(m.promo.value))
       else if Lower(p.grid[m.fr][m.fc]) == 'p' && (m.tr == 0 || m.tr == 7) then (if p.turn == "w" then 'Q' else 'q')
       else if (m.fr, m.fc) != (m.tr, m.tc) then p.grid[m.fr][m.fc]
       else '.')
    ensures forall i, j ::
      (OnBoard(i, j) && (i, j) != (m.fr, m.fc) && (i, j) != (m.tr, m.tc)
       && !(Lower(p.grid[m.fr][m.fc]) == 'p' && IsEpSquare(p, m.tr, m.tc) && i == m.fr && j == EpCol(p.ep))
       && !(Lower(p.grid[m.fr][m.fc]) == 'k' && m.fc == 4 && (m.tc == 6 || m.tc == 2) && i == m.fr
            && (j == 7 || j == 5 || j == 0 || j == 3)))
      ==> g[i][j] == p.grid[i][j]
    ensures Lower(p.grid[m.fr][m.fc]) == 'p' && IsEpSquare(p, m.tr, m.tc) && m.fr != m.tr ==>
      g[m.fr][EpCol(p.ep)] == '.'
    ensures Lower(p.grid[m.fr][m.fc]) == 'k' && m.fc == 4 && m.tc == 6 ==>
      g[m.fr][7] == '.' && g[m.fr][5] == (if p.turn == "w" then 'R' else 'r')
    ensures Lower(p.grid[m.fr][m.fc]) == 'k' && m.fc == 4 && m.tc == 2 ==>
      g[m.fr][0] == '.' && g[m.fr][3] == (if p.turn == "w" then 'R' else 'r')
  {
    var piece := p.grid[m.fr][m.fc];
    var white := p.turn == "w";
    var promoted :=
      if m.promo.Some? then Some(if white then Upper(m.promo.value) else Lower(m.promo.value))
      else if Lower(piece) == 'p' && (m.tr == 0 || m.tr == 7) then Some(if white then 'Q' else 'q')
      else None;
    Place(SideEffects(p, m), m, piece, promoted)
  }

  /**
   * The move itself on the grid: the target takes the piece, the origin
   * empties, then a promotion replaces the piece on the target.
   */
  function Place(g: seq<seq<char>>, m: Move, piece: char, promoted: Option<char>): (h: seq<seq<char>>)
    requires |g| == 8 && (forall i :: 0 <= i < 8 ==> |g[i]| == 8)
    requires OnBoard(m.fr, m.fc) && OnBoard(m.tr, m.tc)
    ensures |h| == 8 && (forall i :: 0 <= i < 8 ==> |h[i]| == 8)
    ensures (m.fr, m.fc) != (m.tr, m.tc) ==> h[m.fr][m.fc] == '.'
    ensures h[m.tr][m.tc] ==
      (if promoted.Some? then promoted.value else if (m.fr, m.fc) != (m.tr, m.tc) then piece else '.')
    ensures forall i, j :: OnBoard(i, j) && (i, j) != (m.fr, m.fc) && (i, j) != (m.tr, m.tc) ==> h[i][j] == g[i][j]
  {
    var moved := SetCell(SetCell(g, m.tr, m.tc, piece), m.fr, m.fc, '.');
    if promoted.Some? then SetCell(moved, m.tr, m.tc, promoted.value) else moved
  }

  /**
   * `_apply_raw(fr, fc, tr, tc, promo)`: the position after the move, with no
   * history. The side to move flips, the fullmove number grows only after a
   * move made on Black's turn, the halfmove clock resets on a pawn move or a
   * capture and otherwise grows, and the en-passant field names the skipped
   * square after a two-square pawn push and is "-" otherwise (`NextEp`);
   * the board changes as `MovedGrid` states.
   */
  function ApplyRaw(p: Position, m: Move): (q: Position)
    requires WellFormed(p) && OnBoard(m.fr, m.fc) && OnBoard(m.tr, m.tc)
    ensures WellFormed(q)
    ensures q.grid == MovedGrid(p, m)
    ensures q.turn == "w" <==> p.turn != "w"
    ensures q.fullmove == (if p.turn == "b" then p.fullmove + 1 else p.fullmove)
    ensures var k := Lower(p.grid[m.fr][m.fc]);
      && (k == 'p' || p.grid[m.tr][m.tc] != '.' ==> q.halfmove == 0)
      && (k != 'p' && p.grid[m.tr][m.tc] == '.' ==> q.halfmove == p.halfmove + 1)
      && (q.ep != "-" <==> k == 'p' && (m.fr - m.tr == 2 || m.tr - m.fr == 2))
      && (q.ep != "-" ==> EpRow(q.ep) == (m.fr + m.tr) / 2 && EpCol(q.ep) == m.fc)
  {
    var k := Lower(p.grid[m.fr][m.fc]);
    var ep := NextEp(k, m);
    assert ValidEp(ep);
    Position(
      MovedGrid(p, m),
      if p.turn == "w" then "b" else "w",
      UpdateCastling(p.castling, k, p.turn, m),
      ep,
      if k == 'p' || p.grid[m.tr][m.tc] != '.' then 0 else p.halfmove + 1,
      if p.turn == "b" then p.fullmove + 1 else p.fullmove)
  }

  /** The castling flags of a castling string: the string without '-'. */
  function Flags(cas: string): string {
    RemoveChar(cas, '-')
  }

  /** The mover's flags are some of the flags, with a king's two removed. */
  lemma MoverFlagsShrink(cas: string, k: char, turn: string, m: Move)
    ensures var c := MoverFlags(cas, k, turn, m);
      && multiset(c) <= multiset(RemoveChar(cas, '-'))
      && (k == 'k' && turn == "w" ==> 'K' !in c && 'Q' !in c)
      && (k == 'k' && turn != "w" ==> 'k' !in c && 'q' !in c)
  {
    var c0 := RemoveChar(cas, '-');
    if k == 'k' {
      if turn == "w" {
        RemoveCharCount(c0, 'K');
        RemoveCharCount(RemoveChar(c0, 'K'), 'Q');
      } else {
        RemoveCharCount(c0, 'k');
        RemoveCharCount(RemoveChar(c0, 'k'), 'q');
      }
    }
  }

  lemma FlagsAfterShrink(cas: string, k: char, turn: string, m: Move)
    ensures var f := FlagsAfter(cas, k, turn, m);
      && multiset(f) <= multiset(Flags(cas)) && '-' !in f
      && (k == 'k' && turn == "w" ==> 'K' !in f && 'Q' !in f)
      && (k == 'k' && turn != "w" ==> 'k' !in f && 'q' !in f)
  {
    var c0 := Flags(cas);
    var c := MoverFlags(cas, k, turn, m);
    MoverFlagsShrink(cas, k, turn, m);
    var f := DropCorner(c, m.tr, m.tc);
    SubMultiset(f, c, c0);
    Absent(f, c0, '-');
    Absent(f, c, 'K');
    Absent(f, c, 'Q');
    Absent(f, c, 'k');
    Absent(f, c, 'q');
  }

  lemma SubMultiset(a: string, b: string, c: string)
    requires multiset(a) <= multiset(b) <= multiset(c)
    ensures multiset(a) <= multiset(c)
  {
  }

  /** A letter missing from a text is missing from every sub-multiset of it. */
  lemma Absent(a: string, b: string, x: char)
    requires multiset(a) <= multiset(b)
    ensures x !in b ==> x !in a
  {
    if x in a {
      assert multiset(a)[x] > 0;
    }
  }

  lemma FlagsAfterFromCorner(cas: string, k: char, turn: string, m: Move)
    requires k == 'r' && CornerFlag(m.fr, m.fc).Some? && CornerFlag(m.fr, m.fc).value in cas
    ensures var f := CornerFlag(m.fr, m.fc).value;
      multiset(FlagsAfter(cas, k, turn, m))[f] < multiset(cas)[f]
  {
    var f := CornerFlag(m.fr, m.fc).value;
    var c0 := RemoveChar(cas, '-');
    RemoveCharCount(cas, '-');
    assert multiset(c0)[f] == multiset(cas)[f];
    var c2 := MoverFlags(cas, k, turn, m);
    assert c2 == DropCorner(c0, m.fr, m.fc);
    assert multiset(c2)[f] == multiset(c0)[f] - 1;
    assert multiset(DropCorner(c2, m.tr, m.tc)) <= multiset(c2);
  }

  lemma FlagsAfterToCorner(cas: string, k: char, turn: string, m: Move)
    requires CornerFlag(m.tr, m.tc).Some? && CornerFlag(m.tr, m.tc).value in cas
    ensures var f := CornerFlag(m.tr, m.tc).value;
      multiset(FlagsAfter(cas, k, turn, m))[f] < multiset(cas)[f]
  {
    var f := CornerFlag(m.tr, m.tc).value;
    RemoveCharCount(cas, '-');
    var c0 := RemoveChar(cas, '-');
    var c2 := MoverFlags(cas, k, turn, m);
    MoverFlagsShrink(cas, k, turn, m);
    var out := DropCorner(c2, m.tr, m.tc);
    assert multiset(c2)[f] <= multiset(c0)[f] <= multiset(cas)[f];
    if f in c2 {
      assert multiset(out)[f] == multiset(c2)[f] - 1;
    } else {
      assert out == c2;
      assert multiset(c2)[f] == 0 < multiset(cas)[f];
    }
  }

  /**
   * Castling rights only shrink. The new field is never empty and is "-"
   * exactly when no flag is left; a king move drops both flags of the side
   * to move; a rook leaving its corner, or any piece landing on a corner,
   * drops one copy of that corner's flag.
   */
  lemma CastlingShrinks(p: Position, m: Move)
    requires WellFormed(p) && OnBoard(m.fr, m.fc) && OnBoard(m.tr, m.tc)
    ensures var q := ApplyRaw(p, m);
      && multiset(Flags(q.castling)) <= multiset(Flags(p.castling))
      && q.castling != ""
      && ('-' in q.castling ==> q.castling == "-")
      && (Lower(p.grid[m.fr][m.fc]) == 'k' ==>
            if p.turn == "w" then 'K' !in q.castling && 'Q' !in q.castling
            else 'k' !in q.castling && 'q' !in q.castling)
      && (Lower(p.grid[m.fr][m.fc]) == 'r' && CornerFlag(m.fr, m.fc).Some? ==>
            var f := CornerFlag(m.fr, m.fc).value;
            f in p.castling ==> multiset(q.castling)[f] < multiset(p.castling)[f])
      && (CornerFlag(m.tr, m.tc).Some? ==>
            var f := CornerFlag(m.tr, m.tc).value;
            f in p.castling ==> multiset(q.castling)[f] < multiset(p.castling)[f])
  {
    var k := Lower(p.grid[m.fr][m.fc]);
    assert ApplyRaw(p, m).castling == UpdateCastling(p.castling, k, p.turn, m);
    UpdateCastlingShrinks(p.castling, k, p.turn, m);
  }

  /** `CastlingShrinks` for the castling field alone. */
  lemma UpdateCastlingShrinks(cas: string, k: char, turn: string, m: Move)
    ensures var u := UpdateCastling(cas, k, turn, m);
      && multiset(Flags(u)) <= multiset(Flags(cas))
      && u != ""
      && ('-' in u ==> u == "-")
      && (k == 'k' ==>
            if turn == "w" then 'K' !in u && 'Q' !in u
            else 'k' !in u && 'q' !in u)
      && (k == 'r' && CornerFlag(m.fr, m.fc).Some? ==>
            var f := CornerFlag(m.fr, m.fc).value;
            f in cas ==> multiset(u)[f] < multiset(cas)[f])
      && (CornerFlag(m.tr, m.tc).Some? ==>
            var f := CornerFlag(m.tr, m.tc).value;
            f in cas ==> multiset(u)[f] < multiset(cas)[f])
  {
    var f := FlagsAfter(cas, k, turn, m);
    FlagsAfterShrink(cas, k, turn, m);
    var from, to := CornerFlag(m.fr, m.fc), CornerFlag(m.tr, m.tc);
    if k == 'r' && from.Some? && from.value in cas {
      FlagsAfterFromCorner(cas, k, turn, m);
    }
    if to.Some? && to.value in cas {
      FlagsAfterToCorner(cas, k, turn, m);
    }
    if f == "" {
      DashField();
    } else {
      RemoveCharAbsent(f, '-');
    }
  }

  /** The field "-" holds no flag and no corner letter. */
  lemma DashField()
    ensures Flags("-") == "" && forall x :: x != '-' ==> multiset("-")[x] == 0
  {
    assert "-" == ['-'] + [];
  }

  // ---------------------------------------------------------------- legal_moves

  /** A cell holding a piece of side `t` (`(t == 'w') == p.isupper()`). */
  predicate Own(ch: char, t: string) {
    ch != '.' && ((t == "w") == IsUpper(ch))
  }

  /** The moves of `ms` after which `t`'s own king is not in check, in order. */
  function KeepSafe(p: Position, t: string, ms: seq<Move>): (kept: seq<Move>)
    requires WellFormed(p)
    requires forall m :: m in ms ==> OnBoard(m.fr, m.fc) && OnBoard(m.tr, m.tc)
    ensures forall m :: m in kept <==> m in ms && !InCheck(ApplyRaw(p, m), t)
  {
    if ms == [] then []
    else
      (if InCheck(ApplyRaw(p, ms[0]), t) then [] else [ms[0]]) + KeepSafe(p, t, ms[1..])
  }

  /** The legal moves of the pieces on square (r, c) and after it, in reading order. */
  function LegalFrom(p: Position, t: string, r: int, c: int): seq<Move>
    requires WellFormed(p) && 0 <= r <= 8 && 0 <= c < 8
    decreases 8 - r, 8 - c
  {
    if r == 8 then []
    else
      (if Own(p.grid[r][c], t) then KeepSafe(p, t, Pseudo(p, r, c)) else [])
        + (if c == 7 then LegalFrom(p, t, r + 1, 0) else LegalFrom(p, t, r, c + 1))
  }

  /** `legal_moves(t)`. */
  function LegalMovesFor(p: Position, t: string): seq<Move>
    requires WellFormed(p)
  {
    LegalFrom(p, t, 0, 0)
  }

  /** `legal_moves()`: the legal moves of the side to move. */
  function LegalMoves(p: Position): seq<Move>
    requires WellFormed(p)
  {
    LegalMovesFor(p, p.turn)
  }

  /** A move `legal_moves(t)` keeps: a pseudo-legal move of `t`'s piece that leaves `t` out of check. */
  predicate IsLegal(p: Position, t: string, m: Move)
    requires WellFormed(p)
  {
    && OnBoard(m.fr, m.fc)
    && Own(p.grid[m.fr][m.fc], t)
    && m in Pseudo(p, m.fr, m.fc)
    && !InCheck(ApplyRaw(p, m), t)
  }

  lemma {:induction false} LegalFromMembers(p: Position, t: string, r: int, c: int, m: Move)
    requires WellFormed(p) && 0 <= r <= 8 && 0 <= c < 8
    ensures m in LegalFrom(p, t, r, c) <==> IsLegal(p, t, m) && !Before(m.fr, m.fc, r, c)
    decreases 8 - r, 8 - c
  {
    if r < 8 {
      if c == 7 {
        LegalFromMembers(p, t, r + 1, 0, m);
      } else {
        LegalFromMembers(p, t, r, c + 1, m);
      }
      SquareMembers(p, t, r, c, m);
    }
  }

  /** The legal moves `legal_moves(t)` collects on square (r, c) are the legal moves from there. */
  lemma SquareMembers(p: Position, t: string, r: int, c: int, m: Move)
    requires WellFormed(p) && OnBoard(r, c)
    ensures m in (if Own(p.grid[r][c], t) then KeepSafe(p, t, Pseudo(p, r, c)) else []) <==>
      IsLegal(p, t, m) && m.fr == r && m.fc == c
  {
    if Own(p.grid[r][c], t) {
      var ms := Pseudo(p, r, c);
      if m in ms {
        var i :| 0 <= i < |ms| && ms[i] == m;
      }
    }
  }

  /**
   * A move is in `legal_moves(t)` exactly when it is a pseudo-legal move of
   * one of `t`'s pieces after which `t`'s king is not in check.
   */
  lemma LegalMovesExactly(p: Position, t: string, m: Move)
    requires WellFormed(p)
    ensures m in LegalMovesFor(p, t) <==> IsLegal(p, t, m)
  {
    LegalFromMembers(p, t, 0, 0, m);
  }

  /** Every legal move lands on the board and leaves the mover's king safe. */
  lemma LegalMovesSafe(p: Position, t: string, m: Move)
    requires WellFormed(p)
    requires m in LegalMovesFor(p, t)
    ensures OnBoard(m.fr, m.fc) && OnBoard(m.tr, m.tc)
    ensures !InCheck(ApplyRaw(p, m), t)
  {
    LegalMovesExactly(p, t, m);
    var ms := Pseudo(p, m.fr, m.fc);
    var i :| 0 <= i < |ms| && ms[i] == m;
  }
}
