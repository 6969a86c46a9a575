/**
 * Standard Algebraic Notation as board.py's `_build_san` writes it (PGN
 * standard, section 8.2.3): "O-O" / "O-O-O" for castling, the origin file and
 * 'x' before a pawn capture, "=X" after a promotion, and for the other pieces
 * the letter, then the origin file, rank or both when another legal move of
 * the same kind reaches the same square. Check marks are appended by the
 * caller. The main result is that distinct legal moves get distinct SAN
 * strings even after '+', '#' and 'x' are removed, which is what lets a SAN
 * token be turned back into the move it names.
 */
module ChessSan {
  import opened Common
  import opened PyStr
  import opened ChessPosition
  import opened ChessRules

  /** Every move of `ms` starts and ends on the board. */
  predicate OnBoardMoves(ms: seq<Move>) {
    forall i :: 0 <= i < |ms| ==> OnBoard(ms[i].fr, ms[i].fc) && OnBoard(ms[i].tr, ms[i].tc)
  }

  lemma LegalOnBoard(p: Position)
    requires WellFormed(p)
    ensures OnBoardMoves(LegalMoves(p))
  {
    var ms := LegalMoves(p);
    forall i | 0 <= i < |ms| ensures OnBoard(ms[i].fr, ms[i].fc) && OnBoard(ms[i].tr, ms[i].tc) {
      LegalMovesSafe(p, p.turn, ms[i]);
    }
  }

  /** The move captures: its target is occupied, or it is a pawn move onto the en-passant square. */
  predicate IsCapture(p: Position, m: Move)
    requires WellFormed(p) && OnBoard(m.fr, m.fc) && OnBoard(m.tr, m.tc)
  {
    p.grid[m.tr][m.tc] != '.' || (Lower(p.grid[m.fr][m.fc]) == 'p' && IsEpSquare(p, m.tr, m.tc))
  }

  /** A king move from the e-file to the g- or c-file. */
  predicate IsCastle(p: Position, m: Move)
    requires WellFormed(p) && OnBoard(m.fr, m.fc)
  {
    Lower(p.grid[m.fr][m.fc]) == 'k' && m.fc == 4 && (m.tc == 6 || m.tc == 2)
  }

  /** The other moves of `legal` with the same target, promotion and kind of piece. */
  function Ambiguous(p: Position, m: Move, legal: seq<Move>): (amb: seq<Move>)
    requires WellFormed(p) && OnBoard(m.fr, m.fc) && OnBoardMoves(legal)
    ensures forall a :: a in amb <==>
      (a in legal && a.tr == m.tr && a.tc == m.tc && a.promo == m.promo
       && Lower(p.grid[a.fr][a.fc]) == Lower(p.grid[m.fr][m.fc]) && !(a.fr == m.fr && a.fc == m.fc))
  {
    if legal == [] then []
    else
      var a := legal[0];
      (if a.tr == m.tr && a.tc == m.tc && a.promo == m.promo
          && Lower(p.grid[a.fr][a.fc]) == Lower(p.grid[m.fr][m.fc]) && !(a.fr == m.fr && a.fc == m.fc)
       then [a] else [])
        + Ambiguous(p, m, legal[1..])
  }

  predicate SomeSameFile(amb: seq<Move>, c: int) {
    exists i :: 0 <= i < |amb| && amb[i].fc == c
  }

  predicate SomeSameRank(amb: seq<Move>, r: int) {
    exists i :: 0 <= i < |amb| && amb[i].fr == r
  }

  /** The disambiguation: nothing, else the file, else the rank, else both. */
  function Disambiguation(m: Move, amb: seq<Move>): string
    requires OnBoard(m.fr, m.fc)
  {
    if amb == [] then ""
    else if !SomeSameFile(amb, m.fc) then [FileChar(m.fc)]
    else if !SomeSameRank(amb, m.fr) then [RankChar(m.fr)]
    else [FileChar(m.fc), RankChar(m.fr)]
  }

  /** What comes before the capture mark: the pawn's origin file on a capture, or the piece letter and disambiguation. */
  function SanHead(p: Position, m: Move, legal: seq<Move>): string
    requires WellFormed(p) && OnBoard(m.fr, m.fc) && OnBoard(m.tr, m.tc) && OnBoardMoves(legal)
  {
    var k := Lower(p.grid[m.fr][m.fc]);
    if k == 'p' then (if IsCapture(p, m) then [FileChar(m.fc)] else "")
    else [Upper(k)] + Disambiguation(m, Ambiguous(p, m, legal))
  }

  /** What comes after the capture mark: the target square and any "=X" promotion suffix. */
  function SanTail(m: Move): string
    requires OnBoard(m.tr, m.tc)
  {
    SquareName(m.tr, m.tc) + (if m.promo.Some? then ['=', Upper(m.promo.value)] else "")
  }

  /** `_build_san(fr, fc, tr, tc, promo, legal)`. */
  function BuildSan(p: Position, m: Move, legal: seq<Move>): string
    requires WellFormed(p) && OnBoard(m.fr, m.fc) && OnBoard(m.tr, m.tc) && OnBoardMoves(legal)
  {
    if IsCastle(p, m) && m.tc == 6 then "O-O"
    else if IsCastle(p, m) then "O-O-O"
    else SanHead(p, m, legal) + (if IsCapture(p, m) then "x" else "") + SanTail(m)
  }

  /** `san.replace('+', '').replace('#', '').replace('x', '')`. */
  function CleanSan(s: string): string {
    RemoveChar(RemoveChar(RemoveChar(s, '+'), '#'), 'x')
  }

  // ---------------------------------------------------------------- cleaning

  /** No '+', '#' or 'x' in `s`: cleaning leaves it alone. */
  predicate Plain(s: string) {
    '+' !in s && '#' !in s && 'x' !in s
  }

  lemma CleanPlain(s: string)
    requires Plain(s)
    ensures CleanSan(s) == s
  {
    RemoveCharAbsent(s, '+');
    RemoveCharAbsent(s, '#');
    RemoveCharAbsent(s, 'x');
  }

  lemma RemoveCharSingle(ch: char)
    ensures RemoveChar([ch], ch) == []
  {
    assert [ch][1..] == [];
  }

  lemma CleanAppend3(a: string, b: string, c: string)
    requires Plain(a) && Plain(c) && (b == "" || b == "x")
    ensures CleanSan(a + b + c) == a + c
  {
    var s := a + b + c;
    assert '+' !in s && '#' !in s;
    RemoveCharAbsent(s, '+');
    RemoveCharAbsent(s, '#');
    assert CleanSan(s) == RemoveChar(s, 'x');
    RemoveCharAbsent(a, 'x');
    RemoveCharAbsent(c, 'x');
    var ab := a + b;
    RemoveCharAppend(ab, c, 'x');
    assert RemoveChar(s, 'x') == RemoveChar(ab, 'x') + RemoveChar(c, 'x');
    RemoveCharAppend(a, b, 'x');
    assert RemoveChar(ab, 'x') == RemoveChar(a, 'x') + RemoveChar(b, 'x');
    if b == "x" {
      RemoveCharSingle('x');
    }
    assert RemoveChar(ab, 'x') == a;
  }

  /** The SAN of a non-castling move with its capture mark taken out. */
  function SanKey(p: Position, m: Move, legal: seq<Move>): string
    requires WellFormed(p) && OnBoard(m.fr, m.fc) && OnBoard(m.tr, m.tc) && OnBoardMoves(legal)
  {
    SanHead(p, m, legal) + SanTail(m)
  }

  /** A promotion letter of a legal move. */
  predicate PromoLetter(m: Move) {
    m.promo.None? || m.promo.value in "qrbn"
  }

  lemma HeadTailPlain(p: Position, m: Move, legal: seq<Move>)
    requires WellFormed(p) && OnBoard(m.fr, m.fc) && OnBoard(m.tr, m.tc) && OnBoardMoves(legal)
    requires PromoLetter(m)
    requires Lower(p.grid[m.fr][m.fc]) in "pnbrqk"
    ensures Plain(SanHead(p, m, legal)) && Plain(SanTail(m))
  {
    if Lower(p.grid[m.fr][m.fc]) != 'p' {
      DisambiguationPlain(m, Ambiguous(p, m, legal));
    }
    SanTailPlain(m);
  }

  lemma DisambiguationPlain(m: Move, amb: seq<Move>)
    requires OnBoard(m.fr, m.fc)
    ensures Plain(Disambiguation(m, amb))
  {
  }

  lemma SanTailPlain(m: Move)
    requires OnBoard(m.tr, m.tc) && PromoLetter(m)
    ensures Plain(SanTail(m))
  {
  }

  /** Cleaning the SAN of a non-castling move removes exactly its capture mark. */
  lemma CleanBuildSan(p: Position, m: Move, legal: seq<Move>)
    requires WellFormed(p) && OnBoard(m.fr, m.fc) && OnBoard(m.tr, m.tc) && OnBoardMoves(legal)
    requires PromoLetter(m)
    requires Lower(p.grid[m.fr][m.fc]) in "pnbrqk"
    ensures CleanSan(BuildSan(p, m, legal)) ==
      (if IsCastle(p, m) && m.tc == 6 then "O-O" else if IsCastle(p, m) then "O-O-O" else SanKey(p, m, legal))
  {
    if IsCastle(p, m) {
      CleanPlain("O-O");
      CleanPlain("O-O-O");
    } else {
      HeadTailPlain(p, m, legal);
      CleanAppend3(SanHead(p, m, legal), if IsCapture(p, m) then "x" else "", SanTail(m));
    }
  }

  // ---------------------------------------------------------------- facts about legal moves

  /** A legal move is a pseudo-legal move of a piece of the side to move. */
  lemma LegalPseudo(p: Position, m: Move)
    requires WellFormed(p) && m in LegalMoves(p)
    ensures OnBoard(m.fr, m.fc) && Own(p.grid[m.fr][m.fc], p.turn) && m in Pseudo(p, m.fr, m.fc)
  {
    LegalMovesExactly(p, p.turn, m);
  }

  /** A pseudo-legal move lands on the board, moves one of the six kinds, and only a pawn promotes, to q, r, b or n. */
  lemma PseudoKind(p: Position, m: Move)
    requires WellFormed(p) && OnBoard(m.fr, m.fc) && m in Pseudo(p, m.fr, m.fc)
    ensures OnBoard(m.tr, m.tc) && Lower(p.grid[m.fr][m.fc]) in "pnbrqk" && PromoLetter(m)
    ensures Lower(p.grid[m.fr][m.fc]) != 'p' ==> m.promo.None?
  {
    var ms := Pseudo(p, m.fr, m.fc);
    var i :| 0 <= i < |ms| && ms[i] == m;
    if Lower(p.grid[m.fr][m.fc]) == 'p' {
      assert PawnShape(p, m.fr, m.fc, ms[i]);
    }
  }

  lemma PseudoPawn(p: Position, m: Move)
    requires WellFormed(p) && OnBoard(m.fr, m.fc) && m in Pseudo(p, m.fr, m.fc)
    requires Lower(p.grid[m.fr][m.fc]) == 'p'
    ensures PawnShape(p, m.fr, m.fc, m)
  {
    var ms := Pseudo(p, m.fr, m.fc);
    var i :| 0 <= i < |ms| && ms[i] == m;
  }

  /** A pawn that reaches the last rank must promote: a legal promotion has no legal twin without the letter. */
  lemma PromotionNeedsLetter(p: Position, m: Move)
    requires WellFormed(p) && m in LegalMoves(p) && m.promo.Some?
    ensures m.(promo := None) !in LegalMoves(p)
  {
    LegalPseudo(p, m);
    LegalKind(p, m);
    PseudoPawn(p, m);
    var n := m.(promo := None);
    if n in LegalMoves(p) {
      LegalPseudo(p, n);
      PseudoPawn(p, n);
    }
  }

  /** A pseudo-legal castling move goes along the home rank of the king's side. */
  lemma PseudoCastle(p: Position, m: Move)
    requires WellFormed(p) && OnBoard(m.fr, m.fc) && m in Pseudo(p, m.fr, m.fc)
    requires IsCastle(p, m)
    ensures m.tr == m.fr && m.fr == (if SideOf(p.grid[m.fr][m.fc]) == "w" then 7 else 0) && m.promo.None?
  {
    var ms := Pseudo(p, m.fr, m.fc);
    var i :| 0 <= i < |ms| && ms[i] == m;
  }

  /** The common facts about a legal move that the SAN proofs use. */
  lemma LegalKind(p: Position, m: Move)
    requires WellFormed(p) && m in LegalMoves(p)
    ensures OnBoard(m.fr, m.fc) && OnBoard(m.tr, m.tc)
    ensures Lower(p.grid[m.fr][m.fc]) in "pnbrqk" && PromoLetter(m)
    ensures Lower(p.grid[m.fr][m.fc]) != 'p' ==> m.promo.None?
    ensures SideOf(p.grid[m.fr][m.fc]) == (if p.turn == "w" then "w" else "b")
  {
    LegalPseudo(p, m);
    PseudoKind(p, m);
  }

  /** No pseudo-legal move stays on its square. */
  lemma NotStationary(p: Position, m: Move)
    requires WellFormed(p) && OnBoard(m.fr, m.fc) && m in Pseudo(p, m.fr, m.fc)
    ensures (m.fr, m.fc) != (m.tr, m.tc)
  {
    var k := Lower(p.grid[m.fr][m.fc]);
    if k == 'n' || k == 'k' {
      LeaperNotStationary(p, m);
    } else if k == 'b' || k == 'r' || k == 'q' {
      SliderNotStationary(p, m);
    }
  }

  lemma LeaperNotStationary(p: Position, m: Move)
    requires WellFormed(p) && OnBoard(m.fr, m.fc) && m in Pseudo(p, m.fr, m.fc)
    requires Lower(p.grid[m.fr][m.fc]) == 'n' || Lower(p.grid[m.fr][m.fc]) == 'k'
    ensures (m.fr, m.fc) != (m.tr, m.tc)
  {
    if Lower(p.grid[m.fr][m.fc]) == 'n' {
      StepNotStationary(p, m.fr, m.fc, KnightDirs, m);
    } else if m in StepMoves(p, m.fr, m.fc, KingDirs) {
      StepNotStationary(p, m.fr, m.fc, KingDirs, m);
    }
  }

  lemma SliderNotStationary(p: Position, m: Move)
    requires WellFormed(p) && OnBoard(m.fr, m.fc) && m in Pseudo(p, m.fr, m.fc)
    requires Lower(p.grid[m.fr][m.fc]) in "brq"
    ensures (m.fr, m.fc) != (m.tr, m.tc)
  {
    var k := Lower(p.grid[m.fr][m.fc]);
    var dirs := if k == 'b' then BishopDirs else if k == 'r' then RookDirs else QueenDirs;
    DirTables();
    assert Pseudo(p, m.fr, m.fc) == SlideMoves(p, m.fr, m.fc, dirs);
    SlideNotStationary(p, m.fr, m.fc, dirs, m);
  }

  lemma StepNotStationary(p: Position, r: int, c: int, dirs: seq<(int, int)>, m: Move)
    requires WellFormed(p) && OnBoard(r, c)
    requires m in StepMoves(p, r, c, dirs)
    requires p.grid[r][c] != '.' && (IsUpper(p.grid[r][c]) || IsLower(p.grid[r][c]))
    ensures (m.tr, m.tc) != (r, c)
  {
    var ms := StepMoves(p, r, c, dirs);
    var i :| 0 <= i < |ms| && ms[i] == m;
    assert !Same(p.grid[r][c], p.grid[m.tr][m.tc]);
  }

  lemma SlideNotStationary(p: Position, r: int, c: int, dirs: seq<(int, int)>, m: Move)
    requires WellFormed(p) && OnBoard(r, c) && UnitSteps(dirs)
    requires m in SlideMoves(p, r, c, dirs)
    ensures (m.tr, m.tc) != (r, c)
  {
    if dirs != [] {
      if m in SlideRay(p, r, c, r + dirs[0].0, c + dirs[0].1, dirs[0]) {
        RayAway(p, r, c, r + dirs[0].0, c + dirs[0].1, dirs[0], 1, m);
      } else {
        SlideNotStationary(p, r, c, dirs[1..], m);
      }
    }
  }

  /** A ray's squares lie k or more steps from its origin. */
  lemma RayAway(p: Position, r: int, c: int, nr: int, nc: int, d: (int, int), k: nat, m: Move)
    requires WellFormed(p) && OnBoard(r, c) && UnitStep(d)
    requires k >= 1 && nr == r + k * d.0 && nc == c + k * d.1
    requires m in SlideRay(p, r, c, nr, nc, d)
    ensures (m.tr, m.tc) != (r, c)
    decreases RayMeasure(nr, nc, d)
  {
    if OnBoard(nr, nc) && p.grid[nr][nc] == '.' && m != Move(r, c, nr, nc, None) {
      RayAway(p, r, c, nr + d.0, nc + d.1, d, k + 1, m);
    }
  }

  // ---------------------------------------------------------------- uniqueness

  lemma SplitAt(h1: string, t1: string, h2: string, t2: string)
    requires h1 + t1 == h2 + t2 && |t1| == |t2|
    ensures h1 == h2 && t1 == t2
  {
    assert h1 == (h1 + t1)[..|h1|];
    assert h2 == (h2 + t2)[..|h2|];
  }

  /** The tail's length and last character reveal whether the move promotes. */
  lemma TailShape(m: Move)
    requires OnBoard(m.tr, m.tc) && PromoLetter(m)
    ensures var t := SanTail(m);
      && |t| == (if m.promo.Some? then 4 else 2)
      && (m.promo.Some? ==> IsUpper(t[|t| - 1]))
      && (m.promo.None? ==> IsDigit(t[|t| - 1]))
  {
  }

  /** Equal tails name the same target square and the same promotion. */
  lemma TailInjective(m1: Move, m2: Move)
    requires OnBoard(m1.tr, m1.tc) && OnBoard(m2.tr, m2.tc) && PromoLetter(m1) && PromoLetter(m2)
    requires SanTail(m1) == SanTail(m2)
    ensures m1.tr == m2.tr && m1.tc == m2.tc && m1.promo == m2.promo
  {
    var t1, t2 := SanTail(m1), SanTail(m2);
    assert t1[0] == FileChar(m1.tc) && t2[0] == FileChar(m2.tc);
    assert t1[1] == RankChar(m1.tr) && t2[1] == RankChar(m2.tr);
    TailShape(m1);
    TailShape(m2);
    if m1.promo.Some? {
      assert t1[3] == Upper(m1.promo.value) && t2[3] == Upper(m2.promo.value);
    }
  }

  /** The first character of a non-castling key: a file letter for a pawn, the piece letter otherwise. */
  lemma KeyHead(p: Position, m: Move, legal: seq<Move>)
    requires WellFormed(p) && OnBoard(m.fr, m.fc) && OnBoard(m.tr, m.tc) && OnBoardMoves(legal)
    requires Lower(p.grid[m.fr][m.fc]) in "pnbrqk"
    ensures var h := SanHead(p, m, legal);
      if Lower(p.grid[m.fr][m.fc]) == 'p' then h == [] || (|h| == 1 && IsLower(h[0]))
      else |h| >= 1 && h[0] == Upper(Lower(p.grid[m.fr][m.fc])) && h[0] in "NBRQK"
  {
  }

  /**
   * Where a pawn move starts, seen from its target: one row back, or two
   * rows back over an empty square.
   */
  predicate PawnReach(p: Position, m: Move)
    requires WellFormed(p) && OnBoard(m.fr, m.fc)
  {
    var fwd := if p.turn == "w" then -1 else 1;
    || m.tr == m.fr + fwd
    || (m.tc == m.fc && m.tr == m.fr + 2 * fwd && 0 <= m.fr + fwd < 8 && p.grid[m.fr + fwd][m.fc] == '.')
  }

  /**
   * Two pawn moves of the same file to the same square with the same
   * promotion are the same move: neither pawn can jump the other.
   */
  lemma PawnSameFile(p: Position, m1: Move, m2: Move)
    requires WellFormed(p) && OnBoard(m1.fr, m1.fc) && OnBoard(m2.fr, m2.fc)
    requires Lower(p.grid[m1.fr][m1.fc]) == 'p' && Lower(p.grid[m2.fr][m2.fc]) == 'p'
    requires m1.fc == m2.fc && m1.tr == m2.tr && m1.tc == m2.tc && m1.promo == m2.promo
    requires PawnReach(p, m1) && PawnReach(p, m2)
    ensures m1 == m2
  {
    assert m1.fr == m2.fr;
  }

  /** Every legal pawn move is one of the pawn's steps. */
  lemma PawnRows(p: Position, m: Move)
    requires WellFormed(p) && m in LegalMoves(p)
    requires OnBoard(m.fr, m.fc) && Lower(p.grid[m.fr][m.fc]) == 'p'
    ensures OnBoard(m.tr, m.tc) && PawnReach(p, m)
  {
    LegalKind(p, m);
    LegalPseudo(p, m);
    PseudoPawn(p, m);
    assert Forward(p.grid[m.fr][m.fc]) == if p.turn == "w" then -1 else 1;
  }

  /** A legal pawn move that does not capture goes straight ahead. */
  lemma QuietPawnStraight(p: Position, m: Move)
    requires WellFormed(p) && m in LegalMoves(p)
    requires OnBoard(m.fr, m.fc) && OnBoard(m.tr, m.tc) && Lower(p.grid[m.fr][m.fc]) == 'p'
    ensures !IsCapture(p, m) ==> m.fc == m.tc
  {
    LegalPseudo(p, m);
    PseudoPawn(p, m);
  }

  /** Two legal pawn moves with the same cleaned SAN are the same move. */
  lemma PawnKeyUnique(p: Position, m1: Move, m2: Move)
    requires WellFormed(p) && m1 in LegalMoves(p) && m2 in LegalMoves(p)
    requires OnBoardMoves(LegalMoves(p))
    requires OnBoard(m1.fr, m1.fc) && OnBoard(m1.tr, m1.tc) && OnBoard(m2.fr, m2.fc) && OnBoard(m2.tr, m2.tc)
    requires Lower(p.grid[m1.fr][m1.fc]) == 'p' && Lower(p.grid[m2.fr][m2.fc]) == 'p'
    requires m1.tr == m2.tr && m1.tc == m2.tc && m1.promo == m2.promo
    requires SanHead(p, m1, LegalMoves(p)) == SanHead(p, m2, LegalMoves(p))
    ensures m1 == m2
  {
    QuietPawnStraight(p, m1);
    QuietPawnStraight(p, m2);
    var L := LegalMoves(p);
    if IsCapture(p, m1) && IsCapture(p, m2) {
      assert SanHead(p, m1, L)[0] == FileChar(m1.fc);
      assert SanHead(p, m2, L)[0] == FileChar(m2.fc);
    }
    PawnRows(p, m1);
    PawnRows(p, m2);
    PawnSameFile(p, m1, m2);
  }

  /**
   * Two moves from different squares, each among the other's ambiguous
   * moves, get different disambiguations: file, rank and file-and-rank
   * strings never coincide for different origins.
   */
  lemma DisambiguationDistinct(m1: Move, m2: Move, amb1: seq<Move>, amb2: seq<Move>)
    requires OnBoard(m1.fr, m1.fc) && OnBoard(m2.fr, m2.fc)
    requires m2 in amb1 && m1 in amb2 && (m1.fr != m2.fr || m1.fc != m2.fc)
    ensures Disambiguation(m1, amb1) != Disambiguation(m2, amb2)
  {
    var i :| 0 <= i < |amb1| && amb1[i] == m2;
    var j :| 0 <= j < |amb2| && amb2[j] == m1;
    var d1, d2 := Disambiguation(m1, amb1), Disambiguation(m2, amb2);
    if d1 == d2 {
      if !SomeSameFile(amb1, m1.fc) {
        assert false;
      } else if !SomeSameRank(amb1, m1.fr) {
        assert false;
      } else {
        assert false;
      }
    }
  }

  /** Two legal moves of the same kind of piece (not a pawn) with the same cleaned SAN are the same move. */
  lemma PieceKeyUnique(p: Position, m1: Move, m2: Move)
    requires WellFormed(p) && m1 in LegalMoves(p) && m2 in LegalMoves(p)
    requires OnBoardMoves(LegalMoves(p))
    requires OnBoard(m1.fr, m1.fc) && OnBoard(m1.tr, m1.tc) && OnBoard(m2.fr, m2.fc) && OnBoard(m2.tr, m2.tc)
    requires Lower(p.grid[m1.fr][m1.fc]) != 'p' && Lower(p.grid[m1.fr][m1.fc]) == Lower(p.grid[m2.fr][m2.fc])
    requires m1.tr == m2.tr && m1.tc == m2.tc && m1.promo == m2.promo
    requires SanHead(p, m1, LegalMoves(p)) == SanHead(p, m2, LegalMoves(p))
    ensures m1 == m2
  {
    var L := LegalMoves(p);
    if m1.fr != m2.fr || m1.fc != m2.fc {
      var amb1, amb2 := Ambiguous(p, m1, L), Ambiguous(p, m2, L);
      assert m2 in amb1 && m1 in amb2;
      var d1, d2 := Disambiguation(m1, amb1), Disambiguation(m2, amb2);
      assert d1 == SanHead(p, m1, L)[1..] && d2 == SanHead(p, m2, L)[1..];
      DisambiguationDistinct(m1, m2, amb1, amb2);
      assert false;
    }
  }

  /** Equal keys split into equal heads and equal tails. */
  lemma KeySplit(p: Position, m1: Move, m2: Move, legal: seq<Move>)
    requires WellFormed(p) && OnBoardMoves(legal)
    requires OnBoard(m1.fr, m1.fc) && OnBoard(m1.tr, m1.tc) && OnBoard(m2.fr, m2.fc) && OnBoard(m2.tr, m2.tc)
    requires PromoLetter(m1) && PromoLetter(m2)
    requires SanKey(p, m1, legal) == SanKey(p, m2, legal)
    ensures SanHead(p, m1, legal) == SanHead(p, m2, legal)
    ensures m1.tr == m2.tr && m1.tc == m2.tc && m1.promo == m2.promo
  {
    var h1, t1, h2, t2 := SanHead(p, m1, legal), SanTail(m1), SanHead(p, m2, legal), SanTail(m2);
    TailShape(m1);
    TailShape(m2);
    assert (h1 + t1)[|h1 + t1| - 1] == t1[|t1| - 1];
    assert (h2 + t2)[|h2 + t2| - 1] == t2[|t2| - 1];
    SplitAt(h1, t1, h2, t2);
    TailInjective(m1, m2);
  }

  /** Equal heads name the same kind of piece. */
  lemma HeadKind(p: Position, m1: Move, m2: Move, legal: seq<Move>)
    requires WellFormed(p) && OnBoardMoves(legal)
    requires OnBoard(m1.fr, m1.fc) && OnBoard(m1.tr, m1.tc) && OnBoard(m2.fr, m2.fc) && OnBoard(m2.tr, m2.tc)
    requires Lower(p.grid[m1.fr][m1.fc]) in "pnbrqk" && Lower(p.grid[m2.fr][m2.fc]) in "pnbrqk"
    requires SanHead(p, m1, legal) == SanHead(p, m2, legal)
    ensures Lower(p.grid[m1.fr][m1.fc]) == Lower(p.grid[m2.fr][m2.fc])
  {
    KeyHead(p, m1, legal);
    KeyHead(p, m2, legal);
  }

  /** Two legal non-castling moves with the same cleaned SAN are the same move. */
  lemma KeyUnique(p: Position, m1: Move, m2: Move)
    requires WellFormed(p) && m1 in LegalMoves(p) && m2 in LegalMoves(p)
    requires OnBoardMoves(LegalMoves(p))
    requires OnBoard(m1.fr, m1.fc) && OnBoard(m1.tr, m1.tc) && OnBoard(m2.fr, m2.fc) && OnBoard(m2.tr, m2.tc)
    requires SanKey(p, m1, LegalMoves(p)) == SanKey(p, m2, LegalMoves(p))
    ensures m1 == m2
  {
    var L := LegalMoves(p);
    LegalKind(p, m1);
    LegalKind(p, m2);
    KeySplit(p, m1, m2, L);
    HeadKind(p, m1, m2, L);
    if Lower(p.grid[m1.fr][m1.fc]) == 'p' {
      PawnKeyUnique(p, m1, m2);
    } else {
      PieceKeyUnique(p, m1, m2);
    }
  }

  /** Only one legal move castles to a given side: the king's home square is fixed by the side to move. */
  lemma CastleUnique(p: Position, m1: Move, m2: Move)
    requires WellFormed(p) && m1 in LegalMoves(p) && m2 in LegalMoves(p)
    requires OnBoard(m1.fr, m1.fc) && OnBoard(m2.fr, m2.fc)
    requires IsCastle(p, m1) && IsCastle(p, m2) && m1.tc == m2.tc
    ensures m1 == m2
  {
    LegalPseudo(p, m1);
    LegalPseudo(p, m2);
    PseudoCastle(p, m1);
    PseudoCastle(p, m2);
  }

  /** A key never starts with 'O', so it is never a castling string. */
  lemma KeyNotCastle(p: Position, m: Move, legal: seq<Move>)
    requires WellFormed(p) && OnBoard(m.fr, m.fc) && OnBoard(m.tr, m.tc) && OnBoardMoves(legal)
    requires Lower(p.grid[m.fr][m.fc]) in "pnbrqk"
    ensures SanKey(p, m, legal) != "O-O" && SanKey(p, m, legal) != "O-O-O"
  {
    KeyHead(p, m, legal);
    var key := SanKey(p, m, legal);
    assert key[0] != 'O' by {
      if SanHead(p, m, legal) == [] {
        assert key[0] == FileChar(m.tc);
      }
    }
  }

  /**
   * Distinct legal moves have distinct SAN strings, even with '+', '#' and
   * 'x' removed: the cleaned SAN of a legal move identifies it.
   */
  lemma SanUnique(p: Position, m1: Move, m2: Move)
    requires WellFormed(p)
    requires m1 in LegalMoves(p) && m2 in LegalMoves(p) && m1 != m2
    ensures OnBoardMoves(LegalMoves(p))
    ensures OnBoard(m1.fr, m1.fc) && OnBoard(m1.tr, m1.tc) && OnBoard(m2.fr, m2.fc) && OnBoard(m2.tr, m2.tc)
    ensures CleanSan(BuildSan(p, m1, LegalMoves(p))) != CleanSan(BuildSan(p, m2, LegalMoves(p)))
  {
    var L := LegalMoves(p);
    LegalOnBoard(p);
    LegalKind(p, m1);
    LegalKind(p, m2);
    CleanBuildSan(p, m1, L);
    CleanBuildSan(p, m2, L);
    if IsCastle(p, m1) && IsCastle(p, m2) {
      if m1.tc == m2.tc {
        CastleUnique(p, m1, m2);
      }
    } else if IsCastle(p, m1) {
      KeyNotCastle(p, m2, L);
    } else if IsCastle(p, m2) {
      KeyNotCastle(p, m1, L);
    } else if SanKey(p, m1, L) == SanKey(p, m2, L) {
      KeyUnique(p, m1, m2);
    }
  }

  // ---------------------------------------------------------------- SAN to UCI

  /** The UCI text of a move: origin, target and the promotion letter if any. */
  function UciOf(m: Move): (u: string)
    requires OnBoard(m.fr, m.fc) && OnBoard(m.tr, m.tc)
    ensures |u| == (if m.promo.Some? then 5 else 4)
    ensures u[0] == FileChar(m.fc) && u[1] == RankChar(m.fr) && u[2] == FileChar(m.tc) && u[3] == RankChar(m.tr)
    ensures m.promo.Some? ==> u[4] == m.promo.value
  {
    SquareName(m.fr, m.fc) + SquareName(m.tr, m.tc) + (if m.promo.Some? then [m.promo.value] else "")
  }

  /** The candidate test of `_san_to_uci`: equal after cleaning, or equal as written. */
  predicate SanMatches(p: Position, m: Move, legal: seq<Move>, san: string)
    requires WellFormed(p) && OnBoard(m.fr, m.fc) && OnBoard(m.tr, m.tc) && OnBoardMoves(legal)
  {
    CleanSan(BuildSan(p, m, legal)) == CleanSan(san) || BuildSan(p, m, legal) == san
  }

  /** The first move of `ms` whose SAN (against `legal`) matches `san`. */
  function FirstMatch(p: Position, san: string, legal: seq<Move>, ms: seq<Move>): (r: Option<Move>)
    requires WellFormed(p) && OnBoardMoves(legal) && OnBoardMoves(ms)
    ensures r.Some? ==> r.value in ms && SanMatches(p, r.value, legal, san)
    ensures r.None? <==> forall i :: 0 <= i < |ms| ==> !SanMatches(p, ms[i], legal, san)
  {
    if ms == [] then None
    else if SanMatches(p, ms[0], legal, san) then Some(ms[0])
    else FirstMatch(p, san, legal, ms[1..])
  }

  /** `_san_to_uci(board, san)`: the UCI text of the first legal move whose SAN matches, or `None`. */
  function SanToUci(p: Position, san: string): Option<string>
    requires WellFormed(p)
  {
    var legal := LegalMoves(p);
    LegalOnBoard(p);
    match FirstMatch(p, san, legal, legal)
    case None => None
    case Some(m) => Some(UciOf(m))
  }

  /**
   * A translation that succeeds names a legal move whose SAN equals the input
   * once '+', '#' and 'x' are removed.
   */
  lemma SanToUciSound(p: Position, san: string)
    requires WellFormed(p) && SanToUci(p, san).Some?
    ensures OnBoardMoves(LegalMoves(p))
    ensures exists m :: (&& m in LegalMoves(p) && OnBoard(m.fr, m.fc) && OnBoard(m.tr, m.tc)
      && SanToUci(p, san) == Some(UciOf(m))
      && CleanSan(BuildSan(p, m, LegalMoves(p))) == CleanSan(san))
  {
    var legal := LegalMoves(p);
    LegalOnBoard(p);
    var m := FirstMatch(p, san, legal, legal).value;
    assert m in legal && OnBoard(m.fr, m.fc) && OnBoard(m.tr, m.tc);
  }

  /**
   * Any spelling of a legal move's SAN, with or without '+', '#' and 'x',
   * translates back to that move: the first match can be no other move,
   * because distinct legal moves have distinct cleaned SAN.
   */
  lemma SanToUciComplete(p: Position, m: Move, san: string)
    requires WellFormed(p) && m in LegalMoves(p)
    requires OnBoardMoves(LegalMoves(p)) && OnBoard(m.fr, m.fc) && OnBoard(m.tr, m.tc)
    requires CleanSan(san) == CleanSan(BuildSan(p, m, LegalMoves(p)))
    ensures SanToUci(p, san) == Some(UciOf(m))
  {
    var legal := LegalMoves(p);
    var i :| 0 <= i < |legal| && legal[i] == m;
    assert SanMatches(p, legal[i], legal, san);
    var r := FirstMatch(p, san, legal, legal);
    var m' := r.value;
    if m' != m {
      SanUnique(p, m', m);
      assert false;
    }
  }

  /** In particular the SAN `_build_san` writes for a legal move translates back to its UCI text. */
  lemma BuildSanToUci(p: Position, m: Move)
    requires WellFormed(p) && m in LegalMoves(p)
    requires OnBoardMoves(LegalMoves(p)) && OnBoard(m.fr, m.fc) && OnBoard(m.tr, m.tc)
    ensures SanToUci(p, BuildSan(p, m, LegalMoves(p))) == Some(UciOf(m))
  {
    SanToUciComplete(p, m, BuildSan(p, m, LegalMoves(p)));
  }
}
