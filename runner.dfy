/**
 * The move-acceptance rule of `TournamentRunner._play_game` in
 * tournament.py: how the text a side produces (from the opening book or
 * from its engine) becomes a move on the board, or ends the game as a loss
 * for the side to move. The loop around it (engines, clocks, pauses, the
 * evaluation of each move) is not modelled; the book probe and the engine's
 * reply are parameters.
 */
module GameRunner {
  import opened Common
  import opened PyStr
  import opened ChessPosition
  import opened ChessRules
  import opened ChessSan
  import opened ChessBoard

  /** `MAX_BOOK_MOVES`: book moves a game may use. */
  const MaxBookMoves := 20

  /** `text.strip().lower()`. */
  function Normalize(text: string): (r: string)
    ensures |r| == |Strip(text)|
  {
    LowerText(Strip(text))
  }

  /** The UCI texts of some moves. */
  function UcisOf(ms: seq<Move>): (r: set<string>)
    requires OnBoardMoves(ms)
    ensures forall i :: 0 <= i < |ms| ==> UciOf(ms[i]) in r
    ensures forall u :: u in r ==> exists i :: 0 <= i < |ms| && UciOf(ms[i]) == u
  {
    if ms == [] then {}
    else
      assert OnBoardMoves(ms[1..]) by {
        forall i | 0 <= i < |ms[1..]| ensures OnBoard(ms[1..][i].fr, ms[1..][i].fc) && OnBoard(ms[1..][i].tr, ms[1..][i].tc) {
          assert ms[1..][i] == ms[i + 1];
        }
      }
      var rest := UcisOf(ms[1..]);
      assert forall i :: 1 <= i < |ms| ==> ms[i] == ms[1..][i - 1];
      {UciOf(ms[0])} + rest
  }

  /** `legal_ucis`: the UCI text of every legal move of the side to move. */
  function LegalUcis(p: Position): set<string>
    requires WellFormed(p)
  {
    LegalOnBoard(p);
    UcisOf(LegalMoves(p))
  }

  /** The text a side settles on: a book move, an engine reply, or none at all. */
  datatype Choice = Chosen(uci: string, fromBook: bool) | NoMove

  /**
   * The book is asked while it is present and fewer than `MaxBookMoves` of
   * its moves were used; its answer counts only when, normalised, it is a
   * legal move. Otherwise the engine's reply, normalised, is the move; a
   * missing or blank reply is no move.
   */
  function Choose(legal: set<string>, bookOn: bool, bookUsed: nat, probe: Option<string>, reply: Option<string>): Choice {
    if bookOn && bookUsed < MaxBookMoves && probe.Some? && probe.value != "" && Normalize(probe.value) in legal then
      Chosen(Normalize(probe.value), true)
    else if reply.Some? && reply.value != "" && Normalize(reply.value) != "" then
      Chosen(Normalize(reply.value), false)
    else NoMove
  }

  /** Why a game ends at the move: no move, an illegal text, or a text `apply_uci` rejects. */
  datatype ForfeitReason = ReturnedNoMove | IllegalText(uci: string) | Rejected(uci: string, error: UciError)

  /** The move is played, or the game ends with `result`. */
  datatype Verdict = Accept(uci: string, move: Move, fromBook: bool) | Forfeit(result: string, reason: ForfeitReason)

  /** The result when the side to move forfeits. */
  function LossFor(turn: string): string {
    if turn == "w" then "0-1" else "1-0"
  }

  /** `uci` with four characters is the promotion squares of a legal move that has a promotion letter. */
  predicate PromotionPrefix(legal: set<string>, uci: string) {
    |uci| == 4 && exists m :: m in legal && |m| == 5 && m[..4] == uci
  }

  /**
   * The check of the chosen text: a legal text stands; four characters
   * matching a legal promotion get a queen added; anything else forfeits.
   * The text that stands is then played by `apply_uci`, and a text it
   * rejects forfeits too.
   */
  function Judge(p: Position, c: Choice): (v: Verdict)
    requires WellFormed(p)
    ensures v.Accept? ==> ResolveUci(p, v.uci) == Ok(v.move) && v.move in LegalMoves(p)
    ensures v.Accept? ==> c.Chosen? && v.fromBook == c.fromBook
    ensures v.Forfeit? ==> v.result == LossFor(p.turn)
  {
    match c
    case NoMove => Forfeit(LossFor(p.turn), ReturnedNoMove)
    case Chosen(uci, fromBook) =>
      var legal := LegalUcis(p);
      if uci !in legal && !PromotionPrefix(legal, uci) then Forfeit(LossFor(p.turn), IllegalText(uci))
      else
        var text := if uci in legal then uci else uci + "q";
        match ResolveUci(p, text)
        case Err(e) => Forfeit(LossFor(p.turn), Rejected(text, e))
        case Ok(m) => Accept(text, m, fromBook)
  }

  /** One turn of `_play_game`: choose the text, judge it. */
  function Turn(p: Position, bookOn: bool, bookUsed: nat, probe: Option<string>, reply: Option<string>): Verdict
    requires WellFormed(p)
  {
    Judge(p, Choose(LegalUcis(p), bookOn, bookUsed, probe, reply))
  }

  // ---------------------------------------------------------------- properties

  /**
   * A move that is played is legal, a forfeit is a loss for the side to
   * move, and a legal text is played as the move it names.
   */
  lemma TurnSound(p: Position, bookOn: bool, bookUsed: nat, probe: Option<string>, reply: Option<string>)
    requires WellFormed(p)
    ensures var v := Turn(p, bookOn, bookUsed, probe, reply);
      && (v.Accept? ==> v.move in LegalMoves(p))
      && (v.Accept? && v.uci in LegalUcis(p) ==> OnBoard(v.move.fr, v.move.fc) && OnBoard(v.move.tr, v.move.tc) && UciOf(v.move) == v.uci)
      && (v.Forfeit? ==> v.result == LossFor(p.turn))
  {
    var v := Judge(p, Choose(LegalUcis(p), bookOn, bookUsed, probe, reply));
    if v.Accept? && v.uci in LegalUcis(p) {
      LegalTextMove(p, v.uci, v.move);
    }
  }

  /** The move `apply_uci` resolves a legal text to is the legal move with that text. */
  lemma LegalTextMove(p: Position, u: string, m: Move)
    requires WellFormed(p) && u in LegalUcis(p) && ResolveUci(p, u) == Ok(m)
    ensures OnBoard(m.fr, m.fc) && OnBoard(m.tr, m.tc) && UciOf(m) == u
  {
    LegalOnBoard(p);
    var i :| 0 <= i < |LegalMoves(p)| && UciOf(LegalMoves(p)[i]) == u;
    ResolveUciOf(p, LegalMoves(p)[i]);
  }

  /**
   * A book move is taken only while the book is on and under its cap, and
   * only when it is legal; then it is played, and the engine is not asked.
   */
  lemma BookMoveLegal(p: Position, bookOn: bool, bookUsed: nat, probe: Option<string>, reply: Option<string>)
    requires WellFormed(p)
    ensures var c := Choose(LegalUcis(p), bookOn, bookUsed, probe, reply);
      && (c.Chosen? && c.fromBook ==> bookOn && bookUsed < MaxBookMoves && c.uci in LegalUcis(p))
      && (c.Chosen? && c.fromBook ==> Turn(p, bookOn, bookUsed, probe, reply).Accept?)
      && (c.Chosen? && !c.fromBook ==> reply.Some? && c.uci == Normalize(reply.value))
  {
    var c := Choose(LegalUcis(p), bookOn, bookUsed, probe, reply);
    if c.Chosen? && c.fromBook {
      LegalOnBoard(p);
      var i :| 0 <= i < |LegalMoves(p)| && UciOf(LegalMoves(p)[i]) == c.uci;
      ResolveUciOf(p, LegalMoves(p)[i]);
    }
  }

  /** With no book move, no reply (or a blank one) loses the game for the side to move. */
  lemma NoReplyForfeits(p: Position, bookOn: bool, bookUsed: nat, probe: Option<string>, reply: Option<string>)
    requires WellFormed(p)
    requires !bookOn || bookUsed >= MaxBookMoves || probe.None?
    requires reply.None? || Normalize(reply.value) == ""
    ensures Turn(p, bookOn, bookUsed, probe, reply) == Forfeit(LossFor(p.turn), ReturnedNoMove)
  {
  }

  /** The UCI text of a move is its own normalised form. */
  lemma NormalizeUci(m: Move)
    requires OnBoard(m.fr, m.fc) && OnBoard(m.tr, m.tc) && PromoLetter(m)
    ensures Normalize(UciOf(m)) == UciOf(m)
  {
    var u := UciOf(m);
    assert NoSpace(u);
    StripNoSpace(u);
    assert LowerText(u) == u;
  }

  /** With the book out of play, a reply that is not blank is the text chosen. */
  lemma ReplyChosen(legal: set<string>, bookOn: bool, bookUsed: nat, probe: Option<string>, reply: string)
    requires !bookOn || bookUsed >= MaxBookMoves || probe.None?
    requires Normalize(reply) != ""
    ensures Choose(legal, bookOn, bookUsed, probe, Some(reply)) == Chosen(Normalize(reply), false)
  {
  }

  /** The UCI text of a legal move is played as that move. */
  lemma JudgeLegal(p: Position, m: Move, fromBook: bool)
    requires WellFormed(p) && m in LegalMoves(p)
    requires OnBoard(m.fr, m.fc) && OnBoard(m.tr, m.tc)
    ensures Judge(p, Chosen(UciOf(m), fromBook)) == Accept(UciOf(m), m, fromBook)
  {
    LegalOnBoard(p);
    var i :| 0 <= i < |LegalMoves(p)| && LegalMoves(p)[i] == m;
    assert UciOf(m) in LegalUcis(p);
    ResolveUciOf(p, m);
  }

  /** An engine that answers with a legal move, in any case and padding, has that move played. */
  lemma LegalReplyPlayed(p: Position, m: Move, bookOn: bool, bookUsed: nat, probe: Option<string>, reply: string)
    requires WellFormed(p) && m in LegalMoves(p)
    requires !bookOn || bookUsed >= MaxBookMoves || probe.None?
    requires OnBoard(m.fr, m.fc) && OnBoard(m.tr, m.tc)
    requires Normalize(reply) == UciOf(m)
    ensures Turn(p, bookOn, bookUsed, probe, Some(reply)) == Accept(UciOf(m), m, false)
  {
    ReplyChosen(LegalUcis(p), bookOn, bookUsed, probe, reply);
    JudgeLegal(p, m, false);
  }

  /** Every UCI text of moves on the board has four or five characters. */
  lemma UcisOfLength(ms: seq<Move>, u: string)
    requires OnBoardMoves(ms) && u in UcisOf(ms)
    ensures |u| == 4 || |u| == 5
  {
    var i :| 0 <= i < |ms| && UciOf(ms[i]) == u;
  }

  /**
   * In a legal position a four-character text that is not legal but starts
   * a legal move can only start a promotion: every legal text has four or
   * five characters, and one of four would be the text itself.
   */
  lemma PrefixMatchIsPromotion(p: Position, uci: string, u: string)
    requires WellFormed(p) && |uci| == 4 && uci !in LegalUcis(p)
    requires u in LegalUcis(p) && |u| >= 4 && u[..4] == uci
    ensures |u| == 5
  {
    LegalOnBoard(p);
    UcisOfLength(LegalMoves(p), u);
    FourCharsAreTheText(u, uci);
  }

  /** A text of four characters that starts with `uci` is `uci`. */
  lemma FourCharsAreTheText(u: string, uci: string)
    requires |u| >= 4 && u[..4] == uci
    ensures |u| == 4 ==> u == uci
  {
  }

  /** The first four characters of a legal promotion are not a legal move. */
  lemma PromotionSquaresNotLegal(p: Position, m: Move)
    requires WellFormed(p) && m in LegalMoves(p) && m.promo.Some?
    requires OnBoard(m.fr, m.fc) && OnBoard(m.tr, m.tc)
    ensures UciOf(m)[..4] !in LegalUcis(p)
  {
    LegalOnBoard(p);
    PromotionNeedsLetter(p, m);
    if UciOf(m)[..4] in LegalUcis(p) {
      var j :| 0 <= j < |LegalMoves(p)| && UciOf(LegalMoves(p)[j]) == UciOf(m)[..4];
      var n := LegalMoves(p)[j];
      LegalKind(p, n);
      LegalKind(p, m);
      UciFieldsOf(n);
      UciFieldsOf(m);
      assert false;
    }
  }

  /** The first four characters of a legal queen promotion are played as it. */
  lemma JudgePromotion(p: Position, m: Move, fromBook: bool)
    requires WellFormed(p) && m in LegalMoves(p) && m.promo == Some('q')
    requires OnBoard(m.fr, m.fc) && OnBoard(m.tr, m.tc)
    ensures Judge(p, Chosen(UciOf(m)[..4], fromBook)) == Accept(UciOf(m), m, fromBook)
  {
    var u := UciOf(m);
    PromotionSquaresNotLegal(p, m);
    JudgeLegal(p, m, fromBook);
    assert u in LegalUcis(p) by {
      LegalOnBoard(p);
      var i :| 0 <= i < |LegalMoves(p)| && LegalMoves(p)[i] == m;
    }
    assert |u| == 5 && u[..4] + "q" == u;
    assert PromotionPrefix(LegalUcis(p), u[..4]);
  }

  /**
   * An engine that leaves out the promotion letter of a pawn's move to the
   * last rank has the queen promotion played.
   */
  lemma DroppedLetterQueens(p: Position, m: Move, bookOn: bool, bookUsed: nat, probe: Option<string>, reply: string)
    requires WellFormed(p) && m in LegalMoves(p) && m.promo == Some('q')
    requires !bookOn || bookUsed >= MaxBookMoves || probe.None?
    requires OnBoard(m.fr, m.fc) && OnBoard(m.tr, m.tc)
    requires Normalize(reply) == UciOf(m)[..4]
    ensures Turn(p, bookOn, bookUsed, probe, Some(reply)) == Accept(UciOf(m), m, false)
  {
    ReplyChosen(LegalUcis(p), bookOn, bookUsed, probe, reply);
    JudgePromotion(p, m, false);
  }
}
