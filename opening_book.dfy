/**
 * opening_book.py: reading an openings table (ECO code, name, move list in
 * UCI or SAN) into entries of UCI moves, sorting them longest first, and
 * matching a played move list against them.
 */
module Openings {
  import opened Common
  import opened PyStr
  import opened ChessPosition
  import opened ChessRules
  import opened ChessSan
  import opened ChessEnd
  import opened ChessBoard
  import opened BookEntries

  // ---------------------------------------------------------------- _looks_like_uci

  predicate IsFileLetter(ch: char) { 'a' <= ch <= 'h' }

  /** `_looks_like_uci(tok)`: four or five characters, file-digit-file-digit first. */
  predicate LooksLikeUci(tok: string) {
    && (|tok| == 4 || |tok| == 5)
    && IsFileLetter(tok[0]) && IsDigit(tok[1])
    && IsFileLetter(tok[2]) && IsDigit(tok[3])
  }

  /** Every move's UCI text passes the shape test. */
  lemma UciLooksLikeUci(m: Move)
    requires OnBoard(m.fr, m.fc) && OnBoard(m.tr, m.tc)
    ensures LooksLikeUci(UciOf(m))
  {
  }

  /**
   * A token that passes the shape test gets past `apply_uci`'s length and
   * digit checks, so the only way it can fail there is by being illegal.
   */
  lemma LooksLikeUciReadable(p: Position, tok: string)
    requires WellFormed(p) && LooksLikeUci(tok)
    ensures UciFields(tok).Ok?
    ensures ResolveUci(p, tok).Err? ==> ResolveUci(p, tok).error == IllegalMove
  {
  }

  // ---------------------------------------------------------------- _san_to_uci

  /**
   * The UCI text `_san_to_uci` returns is one `apply_uci` accepts: it
   * resolves to the legal move it was written from.
   */
  lemma SanToUciResolves(p: Position, san: string)
    requires WellFormed(p) && SanToUci(p, san).Some?
    ensures ResolveUci(p, SanToUci(p, san).value).Ok?
    ensures LooksLikeUci(SanToUci(p, san).value)
    ensures var m := ResolveUci(p, SanToUci(p, san).value).value;
      && OnBoard(m.fr, m.fc) && OnBoard(m.tr, m.tc) && OnBoardMoves(LegalMoves(p))
      && CleanSan(BuildSan(p, m, LegalMoves(p))) == CleanSan(san)
  {
    SanToUciSound(p, san);
    var m :| && m in LegalMoves(p) && OnBoard(m.fr, m.fc) && OnBoard(m.tr, m.tc)
      && SanToUci(p, san) == Some(UciOf(m))
      && CleanSan(BuildSan(p, m, LegalMoves(p))) == CleanSan(san);
    ResolveUciOf(p, m);
    UciLooksLikeUci(m);
  }

  // ---------------------------------------------------------------- _tokens_to_uci

  /** `Some([x] + s)` for `Some(s)`; `None` stays `None`. */
  function Cons(x: string, rest: Option<seq<string>>): (r: Option<seq<string>>)
    ensures r.Some? <==> rest.Some?
    ensures r.Some? ==> r.value == [x] + rest.value
  {
    match rest
    case None => None
    case Some(s) => Some([x] + s)
  }

  /** `Some(prefix + s)` for `Some(s)`; `None` stays `None`. */
  function Then(prefix: seq<string>, rest: Option<seq<string>>): (r: Option<seq<string>>)
    ensures r.Some? <==> rest.Some?
    ensures r.Some? ==> r.value == prefix + rest.value
  {
    match rest
    case None => None
    case Some(s) => Some(prefix + s)
  }

  /** The position `apply_uci(uci)` leaves behind, when it accepts `uci`. */
  function After(p: Position, uci: string): (q: Position)
    requires WellFormed(p) && ResolveUci(p, uci).Ok?
    ensures WellFormed(q)
  {
    PlayMove(p, ResolveUci(p, uci).value).after
  }

  /**
   * The UCI text `_tokens_to_uci` records for one non-blank token at `p`:
   * the token itself when it looks like UCI and `apply_uci` accepts it,
   * else the UCI text of its SAN reading, else nothing.
   */
  function Step(p: Position, tok: string): (r: Option<string>)
    requires WellFormed(p)
    ensures r.Some? ==> ResolveUci(p, r.value).Ok? && LooksLikeUci(r.value)
    ensures r.None? <==> !(LooksLikeUci(tok) && ResolveUci(p, tok).Ok?) && SanToUci(p, tok).None?
  {
    if LooksLikeUci(tok) && ResolveUci(p, tok).Ok? then Some(tok)
    else
      var u := SanToUci(p, tok);
      if u.Some? then SanToUciResolves(p, tok); u else None
  }

  /**
   * What `_tokens_to_uci` makes of `tokens` on a board at `p`: blank
   * tokens are skipped, every other token is played as `Step` reads it,
   * and the whole conversion fails at the first token it cannot read.
   */
  function TokensFrom(p: Position, tokens: seq<string>): Option<seq<string>>
    requires WellFormed(p)
    decreases |tokens|
  {
    if tokens == [] then Some([])
    else
      var tok := Strip(tokens[0]);
      if tok == [] then TokensFrom(p, tokens[1..])
      else
        match Step(p, tok)
        case None => None
        case Some(u) => Cons(u, TokensFrom(After(p, u), tokens[1..]))
  }

  /** A move list `apply_uci` accepts one after another, starting at `p`. */
  predicate PlaysFrom(p: Position, us: seq<string>)
    requires WellFormed(p)
    decreases |us|
  {
    us == [] || (ResolveUci(p, us[0]).Ok? && PlaysFrom(After(p, us[0]), us[1..]))
  }

  /** How many tokens are not blank once stripped. */
  function NonBlank(tokens: seq<string>): nat {
    if tokens == [] then 0 else (if Strip(tokens[0]) == [] then 0 else 1) + NonBlank(tokens[1..])
  }

  /**
   * A successful conversion gives one UCI-shaped move per non-blank token,
   * and the moves are legal one after another from `p`.
   */
  lemma TokensFromLegal(p: Position, tokens: seq<string>)
    requires WellFormed(p) && TokensFrom(p, tokens).Some?
    ensures var us := TokensFrom(p, tokens).value;
      && |us| == NonBlank(tokens)
      && PlaysFrom(p, us)
      && forall i :: 0 <= i < |us| ==> LooksLikeUci(us[i])
  {
    TokensFromShape(p, tokens);
    TokensFromPlays(p, tokens);
  }

  lemma {:induction false} TokensFromShape(p: Position, tokens: seq<string>)
    requires WellFormed(p) && TokensFrom(p, tokens).Some?
    ensures var us := TokensFrom(p, tokens).value;
      && |us| == NonBlank(tokens)
      && forall i :: 0 <= i < |us| ==> LooksLikeUci(us[i])
    decreases |tokens|
  {
    if tokens != [] {
      var tok := Strip(tokens[0]);
      if tok == [] {
        TokensFromShape(p, tokens[1..]);
      } else {
        var u := Step(p, tok).value;
        var q := After(p, u);
        var rest := TokensFrom(q, tokens[1..]);
        assert TokensFrom(p, tokens) == Cons(u, rest);
        TokensFromShape(q, tokens[1..]);
        AllUciCons(u, rest.value);
      }
    }
  }

  lemma AllUciCons(u: string, rest: seq<string>)
    requires LooksLikeUci(u) && forall i :: 0 <= i < |rest| ==> LooksLikeUci(rest[i])
    ensures forall i :: 0 <= i < |[u] + rest| ==> LooksLikeUci(([u] + rest)[i])
  {
    forall i | 0 <= i < |[u] + rest| ensures LooksLikeUci(([u] + rest)[i]) {
      if i > 0 {
        assert ([u] + rest)[i] == rest[i - 1];
      }
    }
  }

  lemma {:induction false} TokensFromPlays(p: Position, tokens: seq<string>)
    requires WellFormed(p) && TokensFrom(p, tokens).Some?
    ensures PlaysFrom(p, TokensFrom(p, tokens).value)
    decreases |tokens|
  {
    if tokens != [] {
      var tok := Strip(tokens[0]);
      if tok == [] {
        TokensFromPlays(p, tokens[1..]);
      } else {
        var u := Step(p, tok).value;
        var q := After(p, u);
        var rest := TokensFrom(q, tokens[1..]);
        assert TokensFrom(p, tokens) == Cons(u, rest);
        TokensFromPlays(q, tokens[1..]);
        var us := [u] + rest.value;
        assert us[0] == u && us[1..] == rest.value;
      }
    }
  }

  /** A token no legal move matches, in either reading, makes the whole conversion fail. */
  lemma UnresolvableToken(p: Position, tok: string, rest: seq<string>)
    requires WellFormed(p) && Strip(tok) != []
    requires !(LooksLikeUci(Strip(tok)) && ResolveUci(p, Strip(tok)).Ok?)
    requires SanToUci(p, Strip(tok)).None?
    ensures TokensFrom(p, [tok] + rest).None?
  {
    assert ([tok] + rest)[0] == tok;
  }

  /** Moves each legal in the position the previous ones lead to. */
  predicate GameFrom(p: Position, ms: seq<Move>)
    requires WellFormed(p)
    decreases |ms|
  {
    ms == [] || (ms[0] in LegalMoves(p) && GameFrom(PlayMove(p, ms[0]).after, ms[1..]))
  }

  /** The UCI texts of such a game. */
  function UciTexts(p: Position, ms: seq<Move>): (us: seq<string>)
    requires WellFormed(p) && GameFrom(p, ms)
    ensures |us| == |ms|
    decreases |ms|
  {
    if ms == [] then []
    else
      var m := ms[0];
      LegalMovesSafe(p, p.turn, m);
      [UciOf(m)] + UciTexts(PlayMove(p, m).after, ms[1..])
  }

  /** The UCI text of a legal move is a token `strip()` leaves alone, read back as that move. */
  lemma UciToken(p: Position, m: Move)
    requires WellFormed(p) && m in LegalMoves(p)
    ensures OnBoard(m.fr, m.fc) && OnBoard(m.tr, m.tc)
    ensures Strip(UciOf(m)) == UciOf(m) && UciOf(m) != []
    ensures Step(p, UciOf(m)) == Some(UciOf(m))
    ensures After(p, UciOf(m)) == PlayMove(p, m).after
  {
    LegalKind(p, m);
    ResolveUciOf(p, m);
    UciLooksLikeUci(m);
    UciNoSpace(m);
    StripNoSpace(UciOf(m));
  }

  /** No character of a move's UCI text is white space. */
  lemma UciNoSpace(m: Move)
    requires OnBoard(m.fr, m.fc) && OnBoard(m.tr, m.tc) && PromoLetter(m)
    ensures NoSpace(UciOf(m))
  {
    var u := UciOf(m);
    if m.promo.Some? {
      var c := m.promo.value;
      assert c == 'q' || c == 'r' || c == 'b' || c == 'n' by {
        assert c in "qrbn";
      }
      assert !IsSpace(u[4]);
    }
  }

  /** The UCI texts of a legal game convert back to themselves. */
  lemma {:induction false} UciGameRoundTrip(p: Position, ms: seq<Move>)
    requires WellFormed(p)
    requires GameFrom(p, ms)
    ensures TokensFrom(p, UciTexts(p, ms)) == Some(UciTexts(p, ms))
    decreases |ms|
  {
    if ms != [] {
      var m := ms[0];
      UciToken(p, m);
      var u := UciOf(m);
      var q := PlayMove(p, m).after;
      UciGameRoundTrip(q, ms[1..]);
      var texts := UciTexts(p, ms);
      assert texts[0] == u && texts[1..] == UciTexts(q, ms[1..]);
    }
  }

  // ---------------------------------------------------------------- _load

  /** What `_load` stores for one row: nothing for an empty move list or a failed conversion. */
  function RowEntry(row: Row): (r: seq<Entry>)
    ensures |r| <= 1
  {
    StartFenLoads();
    var raw := Strip(row.moves);
    if raw == [] then []
    else
      match TokensFrom(StartPosition, Split(raw))
      case None => []
      case Some(us) => [Entry(us, Strip(row.eco), Strip(row.name))]
  }

  /** The entries `_load` appends, in file order, before sorting. */
  function Converted(rows: seq<Row>): seq<Entry> {
    Gather(rows, RowEntry)
  }

  /**
   * Every stored entry comes from a row with a non-empty move list, and
   * holds at least one move, each UCI-shaped, legal one after another from
   * the start position.
   */
  lemma RowEntryLegal(row: Row)
    requires RowEntry(row) != []
    ensures var e := RowEntry(row)[0];
      && Strip(row.moves) != []
      && e.moves != []
      && WellFormed(StartPosition)
      && PlaysFrom(StartPosition, e.moves)
      && (forall i :: 0 <= i < |e.moves| ==> LooksLikeUci(e.moves[i]))
      && e.eco == Strip(row.eco) && e.name == Strip(row.name)
  {
    StartFenLoads();
    var raw := Strip(row.moves);
    TokensFromLegal(StartPosition, Split(raw));
    SplitNonBlank(raw);
  }

  lemma SplitNonBlank(raw: string)
    requires raw != [] && !IsSpace(raw[0])
    ensures NonBlank(Split(raw)) > 0
  {
    SplitStartsWithWord(raw);
    var ts := Split(raw);
    StripNoSpace(ts[0]);
  }

  // ---------------------------------------------------------------- the book object

  /** `OpeningBook`: the stored entries, longest move list first. */
  class OpeningBook {
    var entries: seq<Entry>

    predicate Valid()
      reads this
    {
      LongestFirst(entries)
    }

    /**
     * `__init__(csv_path)`: `csv` is the table's rows when the path names
     * a file, `None` when there is no path or no such file.
     */
    constructor(csv: Option<seq<Row>>)
      ensures Valid()
      ensures entries == (if csv.None? then [] else SortLongestFirst(Converted(csv.value)))
    {
      entries := [];
      new;
      if csv.Some? {
        Load(csv.value);
        assert [] + Converted(csv.value) == Converted(csv.value);
      }
    }

    /**
     * `_load`: each row with a non-empty move list whose tokens convert is
     * appended, then the entries are sorted longest first.
     */
    method Load(rows: seq<Row>)
      modifies this
      ensures Valid()
      ensures entries == SortLongestFirst(old(entries) + Converted(rows))
    {
      var loaded := entries;
      var i := 0;
      while i < |rows|
        invariant 0 <= i <= |rows|
        invariant loaded == entries + Gather(rows[..i], RowEntry)
        modifies {}
      {
        var got := ConvertRow(rows[i]);
        GatherStep(rows, RowEntry, i);
        loaded := loaded + got;
        i := i + 1;
      }
      assert rows[..|rows|] == rows;
      SortSorted(loaded);
      entries := SortLongestFirst(loaded);
    }

    /** The body of `_load`'s loop for one row: the entry it appends, if any. */
    method ConvertRow(row: Row) returns (got: seq<Entry>)
      ensures got == RowEntry(row)
    {
      StartFenLoads();
      var raw := Strip(row.moves);
      got := [];
      if raw != [] {
        var uciSeq := TokensToUci(Split(raw));
        if uciSeq.Some? {
          got := [Entry(uciSeq.value, Strip(row.eco), Strip(row.name))];
        }
      }
    }

    /**
     * `_tokens_to_uci(tokens)` on a fresh board: each token is played with
     * `apply_uci`, as written when it looks like UCI and is accepted,
     * otherwise through its SAN reading.
     */
    method TokensToUci(tokens: seq<string>) returns (r: Option<seq<string>>)
      ensures r == TokensFrom(StartPosition, tokens)
    {
      var board := new Board();
      var uciList: seq<string> := [];
      var i := 0;
      assert tokens[0..] == tokens;
      ThenNil(TokensFrom(StartPosition, tokens));
      while i < |tokens|
        invariant 0 <= i <= |tokens|
        invariant board.Valid()
        invariant TokensFrom(StartPosition, tokens) == Then(uciList, TokensFrom(board.Pos(), tokens[i..]))
      {
        var tok := Strip(tokens[i]);
        ghost var p := board.Pos();
        TokensFromNext(p, tokens, i);
        if tok != [] {
          var u := PlayToken(board, tok);
          if u.None? {
            return None;
          }
          assert TokensFrom(p, tokens[i..]) == Cons(u.value, TokensFrom(board.Pos(), tokens[i + 1..]));
          ThenCons(uciList, u.value, TokensFrom(board.Pos(), tokens[i + 1..]));
          uciList := uciList + [u.value];
        } else {
          assert TokensFrom(p, tokens[i..]) == TokensFrom(board.Pos(), tokens[i + 1..]);
        }
        i := i + 1;
      }
      assert tokens[|tokens|..] == [] && uciList + [] == uciList;
      return Some(uciList);
    }

    /**
     * `lookup(uci_moves)`: the ECO code and name of the first entry whose
     * moves begin the played list, or `(None, None)`.
     */
    function Lookup(played: seq<string>): (r: (Option<string>, Option<string>))
      reads this
      ensures r.0.None? <==> r.1.None?
      ensures r.0.None? <==> forall i :: 0 <= i < |entries| ==> !PrefixOf(entries[i].moves, played)
      ensures r.0.Some? ==> exists i :: (&& 0 <= i < |entries| && PrefixOf(entries[i].moves, played)
        && r == (Some(entries[i].eco), Some(entries[i].name)))
    {
      match FirstPrefix(entries, played)
      case None => (None, None)
      case Some(i) => (Some(entries[i].eco), Some(entries[i].name))
    }

    /** `loaded`: at least one entry was stored. */
    function Loaded(): (b: bool)
      reads this
      ensures b <==> entries != []
    {
      |entries| > 0
    }
  }

  /**
   * One token of `_tokens_to_uci`: `apply_uci` on the token when it looks
   * like UCI, otherwise (or when that is refused) on its SAN reading.
   */
  method PlayToken(board: Board, tok: string) returns (u: Option<string>)
    modifies board
    requires board.Valid()
    ensures board.Valid()
    ensures u == Step(old(board.Pos()), tok)
    ensures u.Some? ==> board.Pos() == After(old(board.Pos()), u.value)
  {
    ghost var p := board.Pos();
    if LooksLikeUci(tok) {
      var res := board.ApplyUci(tok);
      if res.Ok? {
        return Some(tok);
      }
    }
    u := SanToUci(board.Pos(), tok);
    if u.None? {
      return;
    }
    SanToUciResolves(p, tok);
    var res := board.ApplyUci(u.value);
  }

  /** `TokensFrom` on `tokens[i..]`, one token unfolded. */
  lemma TokensFromNext(p: Position, tokens: seq<string>, i: int)
    requires WellFormed(p) && 0 <= i < |tokens|
    ensures var tok := Strip(tokens[i]);
      && (tok == [] ==> TokensFrom(p, tokens[i..]) == TokensFrom(p, tokens[i + 1..]))
      && (tok != [] && Step(p, tok).None? ==> TokensFrom(p, tokens[i..]).None?)
      && (tok != [] && Step(p, tok).Some? ==>
            TokensFrom(p, tokens[i..]) == Cons(Step(p, tok).value, TokensFrom(After(p, Step(p, tok).value), tokens[i + 1..])))
  {
    assert tokens[i..][0] == tokens[i] && tokens[i..][1..] == tokens[i + 1..];
  }

  lemma ThenNil(rest: Option<seq<string>>)
    ensures Then([], rest) == rest
  {
    if rest.Some? {
      assert [] + rest.value == rest.value;
    }
  }

  lemma ThenCons(prefix: seq<string>, x: string, rest: Option<seq<string>>)
    ensures Then(prefix, Cons(x, rest)) == Then(prefix + [x], rest)
  {
    if rest.Some? {
      assert prefix + ([x] + rest.value) == (prefix + [x]) + rest.value;
    }
  }

  /**
   * On a book whose entries are sorted longest first, `lookup` reports an
   * entry whose moves begin the played list and are at least as long as
   * those of every other such entry.
   */
  lemma LookupLongest(b: OpeningBook, played: seq<string>, j: int)
    requires b.Valid() && b.Lookup(played).0.Some?
    requires 0 <= j < |b.entries| && PrefixOf(b.entries[j].moves, played)
    ensures var i := FirstPrefix(b.entries, played).value;
      && b.Lookup(played) == (Some(b.entries[i].eco), Some(b.entries[i].name))
      && PrefixOf(b.entries[i].moves, played)
      && |b.entries[j].moves| <= |b.entries[i].moves|
  {
    FirstPrefixLongest(b.entries, played, j);
  }

  /**
   * Of the longest matching rows, `lookup` reports the one that came first
   * in the file: the sort keeps rows of equal length in file order.
   */
  lemma LookupFirstInFile(rows: seq<Row>, played: seq<string>)
    requires FirstPrefix(SortLongestFirst(Converted(rows)), played).Some?
    ensures var sorted := SortLongestFirst(Converted(rows));
      var e := sorted[FirstPrefix(sorted, played).value];
      var k := FirstPrefix(OfLength(Converted(rows), |e.moves|), played);
      k.Some? && OfLength(Converted(rows), |e.moves|)[k.value] == e
  {
    var es := Converted(rows);
    var sorted := SortLongestFirst(es);
    SortSorted(es);
    FirstPrefixOfLength(sorted, played);
    SortStable(es, |sorted[FirstPrefix(sorted, played).value].moves|);
  }

  /** `loaded` after construction: true exactly when some row produced an entry. */
  lemma LoadedIff(rows: seq<Row>)
    ensures SortLongestFirst(Converted(rows)) != [] <==> exists i :: 0 <= i < |rows| && RowEntry(rows[i]) != []
  {
    GatherEmpty(rows, RowEntry);
    if SortLongestFirst(Converted(rows)) == [] {
      assert |multiset(Converted(rows))| == 0;
    }
  }
}
