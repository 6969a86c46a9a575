# Engine tournament core, modelled in Dafny

The system runs chess tournaments between UCI engines. This project models
the parts that carry logic, and proves properties of them:

- **the chess board** of `board.py`:
  - FEN loading and export;
  - attack detection;
  - pseudo-legal and legal move generation;
  - applying a move, raw or with history;
  - SAN rendering;
  - the end-of-game rules and the material count.
- **the tournament controller** of `tournament.py`:
  - player and game records;
  - the Swiss, round-robin and knockout pairings;
  - the `Tournament` state machine;
  - the tournament list of `TournamentManager`;
  - the rule by which a game runner accepts a move from the opening book or
    from an engine.
- **the UCI output parsers** of `engine.py`.
- **the opening book** of `opening_book.py`.

## Modules

- **Common, PyStr** (`common.dfy`, `pystr.dfy`): `Option`/`Result`, and the
  Python string operations the code relies on:
  - `split()` and `split(sep)`, `join`, `strip`;
  - `int()` and `str()` on integers;
  - `startswith`, `lower`/`upper`.
- **ChessPosition, FenText, ChessEnd** (`chess_position.dfy`, `fen_text.dfy`,
  `chess_end.dfy`): the position value, FEN reading and writing, the
  starting position, material, and `game_result` with `_insufficient`.
- **ChessRules** (`chess_rules.dfy`): `find_king`, `is_attacked`,
  `in_check`, `_pseudo`, `_apply_raw` and `legal_moves`, as functions of a
  position.
- **ChessSan** (`chess_san.dfy`): `_build_san`, and the SAN→UCI resolution
  of the opening book.
- **ChessBoard** (`chess_board.dfy`): the `Board` class, whose methods
  update its fields in place:
  - `__init__`/`reset`, `_load_fen`, `to_fen`;
  - `apply_uci` with its move history and repetition map;
  - `material` with its cache.
- **EngineProtocol** (`engine_protocol.dfy`):
  - `_parse_info`, as a loop over the tokens;
  - the read loops of `get_best_move`, `get_eval` and `eval_position`;
  - `_wait`.
- **BookEntries, Openings** (`book_entries.dfy`, `opening_book.dfy`): the `OpeningBook` class, the entry sort and the
  longest-prefix lookup.
- **GameRunner** (`runner.dfy`): the move-acceptance rule of `_play_game`.
- **Pairing, Swiss, RoundRobin** (`pairing.dfy`, `swiss.dfy`,
  `round_robin.dfy`): score rules, sort keys, `SwissPairing`,
  `RoundRobinPairing` and `KnockoutBracket`.
- **Players, Tournaments, TournamentManagement** (`players.dfy`,
  `tournament.dfy`, `manager.dfy`): `TournamentPlayer`, `TournamentGame`,
  `Tournament` and `TournamentManager`, as classes.

## Representation choices

- **Scores are integers.** A score is counted in half-points: a win is 2, a
  draw 1, a loss 0. The Sonneborn-Berger sum, a product of two scores, is
  counted in quarter-points. The source uses the floats 1.0, 0.5 and 0.0,
  which are exact.
- **The three random choices are oracle parameters.**
  - The colour coin of `_assign_colors` is `coin: nat -> bool`, indexed by
    the pair.
  - The coin of `next_round` is the same kind of function.
  - The shuffle of `next_round` is an unspecified permutation, picked with
    `:|`.
  - The draw tie-break of `record_game_result` is a `bool`.
- **Engine replies are lists of lines.** The engine's output queue is given
  as the sequence of lines it would yield. The deadlines and the process
  checks are left out.
- **Positions must be well formed.** The rule functions require an 8×8
  grid, a non-empty turn, and an en-passant field that is `-` or whose
  second character is a digit ("a9" is admitted and, as in the code,
  names no square). The program never meets another position: the only
  FEN it loads is `START_FEN` (board.py:37), and every later position
  comes from a legal move. On other input the Python code does not behave
  uniformly. A short rank, fewer than eight ranks, a one-character
  en-passant field or a non-digit en-passant rank raise an error. A long
  rank, a ninth rank or an empty turn load without error, and play
  continues on the first 8×8 cells.
- **Rejection is a result.** `apply_uci` raising `ValueError` is modelled
  as `Result.Err`, with the board untouched.
- **`_backtrack_pair` does not backtrack.** Its name suggests
  a search that undoes earlier choices. The code never does: the
  recursive call never returns `None`, so the first partner whose pairing
  is new is always taken, and the fallback pairs the head with the next
  player. The model follows the code.
- **The two capture lists are filled after the turn has passed.**
  `apply_uci` appends a captured piece after the side to move has flipped.
  So `cap_white` receives what Black captures, although the field's
  comment says "captured by White". The model follows the code.

## Model

| member | source | states |
|---|---|---|
| BookEntries.SortLongestFirst | opening_book.py:41 | The sorted entry list holds exactly the loaded entries, with the same multiplicity. |
| BookEntries.SortSorted | opening_book.py:40-41 | After the sort, no entry has more moves than an entry before it. |
| BookEntries.SortStable | opening_book.py:41 | The sort is stable: the entries of any one length keep their file order. |
| BookEntries.InsertSorted | opening_book.py:41 | Inserting an entry into a longest-first list keeps it longest-first. |
| BookEntries.InsertStable | opening_book.py:41 | Inserting an entry places it before every entry of its own length, as a stable reverse sort does. |
| BookEntries.OfLength | opening_book.py:41 | The entries of one length are a sub-list of the whole list. |
| BookEntries.Insert | opening_book.py:41 | One insertion step adds exactly one entry to the list. |
| BookEntries.GatherMember | opening_book.py:30-39 | Every loaded entry comes from some row of the file. |
| BookEntries.GatherEmpty | opening_book.py:30-39 | Nothing is loaded iff no row yields an entry. |
| BookEntries.GatherStep | opening_book.py:30-39 | Reading one more row appends that row's entry, if any, after the earlier ones. |
| BookEntries.FirstPrefix | opening_book.py:107-112 | The first entry whose moves begin the played sequence, with none before it matching; None iff no entry matches. |
| BookEntries.FirstPrefixLongest | opening_book.py:93-112 | On a longest-first list, the entry found is at least as long as every entry that matches. |
| BookEntries.FirstPrefixOfLength | opening_book.py:93-112 | The entry found is also the first match among the entries of its own length, so file order breaks ties. |
| ChessBoard.UciFields | board.py:349-353 | The text is rejected iff it has fewer than four characters or its second or fourth character is not a digit, with the reason told apart. |
| ChessBoard.ResolveUci | board.py:349-360 | A move that `apply_uci` accepts is always a legal move of the position. |
| ChessBoard.UciFieldsOf | board.py:349-353 | Reading back a move's UCI text gives the move, and its first four characters give the move without a promotion. |
| ChessBoard.ResolveUciOf | board.py:349-360 | The UCI text of any legal move is accepted as exactly that move. |
| ChessBoard.ResolveQueenCompletion | board.py:355-360 | Four characters naming a promotion square, not legal on their own, are accepted as the queen promotion. |
| ChessBoard.PlayMove | board.py:362-394 | Making a legal move yields a well-formed position where the mover is not in check; the SAN is written before the move, and the check mark is read after it. |
| ChessBoard.CapturedBy | board.py:389-394 | At most one piece is filed, and only into the list of the side to move after the move. |
| ChessBoard.Visit | board.py:396-399 | The repetition count of the new position rises by one, and every other count is unchanged. |
| ChessBoard.Board.constructor | board.py:25-37 | A new board holds the starting position, with empty histories and a valid state. |
| ChessBoard.Board.Reset | board.py:41-43 | Reset restores the starting position and empties every history. |
| ChessBoard.Board.LoadFen | board.py:45-61 | Loading succeeds iff the text is a readable FEN. On success the board holds that position. On failure it keeps every field the code had assigned before the bad clock. |
| ChessBoard.Board.LoadParts | board.py:47-60 | The fields are assigned in order, and the first unreadable clock stops the load, leaving the later fields as they were. |
| ChessBoard.Board.ToFen | board.py:65-81 | The FEN exported is the FEN text of the board's position. |
| ChessBoard.Board.Material | board.py:496-510 | It returns each side's material without kings; the cache then holds those totals, and the position is unchanged. |
| ChessBoard.Board.ApplyUci | board.py:341-400 | Rejected iff the text does not resolve to a legal move, with the board untouched. Otherwise the board holds the position after the move, and one history entry with the SAN and FEN is appended. The repetition count and capture lists are updated and the cache is cleared. |
| ChessBoard.Board.SetPos | board.py:375-382 | The board holds the given position; the histories and the cache are unchanged. |
| ChessBoard.Board.FileCapture | board.py:389-394 | A captured piece goes to `cap_white` when White is to move, else to `cap_black`, and nothing else changes. |
| ChessBoard.Board.Commit | board.py:375-399 | After the move the board is valid and holds the new position; the history grows by one entry, the position's count by one, and the cache is cleared. |
| ChessBoard.Board.UciMovesList | board.py:490-492 | The list gives, in order, the UCI text of every history entry. |
| ChessBoard.UciOfEntries | board.py:490-492 | The UCI texts of the history entries, in order. |
| ChessBoard.UciMovesRoundTrip | board.py:486-492 | Splitting the space-joined move string gives back the move list. |
| ChessBoard.ParseGrid | board.py:47-55 | The rank-by-rank loop builds the grid that the FEN placement denotes. |
| ChessBoard.ParseRank | board.py:48-54 | The character loop expands one rank: a digit gives that many empty squares, and any other character is a piece. |
| ChessBoard.RankText | board.py:67-79 | The loop writes one rank as FEN, merging runs of empty squares into digits. |
| ChessBoard.RowMaterial | board.py:500-508 | The loop sums the values of each side's pieces on one rank. |
| ChessBoard.RankFenStep | board.py:67-79 | One step of the rank writer either extends the empty run or flushes it before a piece. |
| ChessBoard.RowMenStep | board.py:500-508 | One square adds its piece's value to its owner's material total. |
| ChessBoard.MenStep | board.py:498-508 | One more rank adds that rank's material. |
| ChessEnd.StartPlacement | constants.py:5 | The starting grid writes out as the placement field of `START_FEN`. |
| ChessEnd.StartToFen | board.py:65-81 | Exporting the starting position gives `START_FEN` exactly. |
| ChessEnd.StartFaithful | constants.py:5 | The starting position is one that FEN can represent faithfully. |
| ChessEnd.StartFenLoads | board.py:37 | Loading `START_FEN` succeeds and gives the well-formed starting position. |
| ChessEnd.PieceValue | constants.py:11 | No piece is worth more than a queen's 9. |
| ChessEnd.SumValuesAppend | board.py:496-510 | Material is additive over a split of the pieces. |
| ChessEnd.MenHas | board.py:471-476 | Every piece on the board appears, lower-cased, in its owner's list. |
| ChessEnd.MenFrom | board.py:471-476 | Every listed piece comes from a non-empty cell of the board. |
| ChessEnd.TooFewCount | board.py:477-482 | The final test holds iff there are no non-king pieces, or exactly one, which is a bishop or a knight. |
| ChessEnd.InsufficientCount | board.py:469-482 | Insufficient material holds iff the non-king pieces of both sides are none, or a single bishop or knight. |
| ChessEnd.InsufficientNoHeavy | board.py:469-482 | With insufficient material, no pawn, rook or queen is on the board. |
| ChessEnd.KingsOnly | board.py:479 | A board with only kings is insufficient material. |
| ChessEnd.SumValuesWithoutKings | board.py:477-478 | Dropping the kings does not change the material total, since a king is worth 0. |
| ChessEnd.InsufficientMaterial | board.py:469-510 | With insufficient material, neither side has more than 3 points of material. |
| ChessEnd.TooFewValue | board.py:477-482 | Lists that pass the final test are worth at most 3 points each. |
| ChessEnd.GameResult | board.py:445-467 | The game is over iff there is no legal move, or the fifty-move clock reached 100, or the position occurred three times, or material is insufficient. There is a winner iff the side to move is mated, and every other end is "1/2-1/2". |
| ChessEnd.CheckmateMeans | board.py:454-458 | A decided game is a checkmate: the side to move is in check with no legal move, and the other side wins with the matching result string. |
| ChessEnd.StalemateMeans | board.py:454-459 | Stalemate means no legal move while not in check. |
| ChessEnd.LegalMoveNoWinner | board.py:453-467 | While a legal move exists there is no winner, and the result is a draw or none. |
| ChessPosition.FileChar | board.py:85 | Column c is written as the letter c places after 'a', one of a to h. |
| ChessPosition.RankChar | board.py:85 | Row r is written as the digit 8 − r, which `int()` reads back as 8 − r. |
| ChessPosition.RankFens | board.py:67-79 | One FEN rank text per grid row, in order. |
| ChessPosition.Dots | board.py:50-51 | A digit n expands to exactly n empty squares. |
| ChessPosition.LoadRankAppend | board.py:48-54 | Reading a rank text is compositional over concatenation. |
| ChessPosition.LoadEmptyRun | board.py:50-77 | The digit written for a run of empty squares reads back as that run. |
| ChessPosition.RankRoundTrip | board.py:48-79 | Writing a rank and reading it back gives the rank, with any pending empty run in front. |
| ChessPosition.RankFenShape | board.py:67-79 | A written rank is a non-empty token without '/', so the placement splits back into ranks. |
| ChessPosition.PlacementRoundTrip | board.py:47-79 | Writing an 8×8 grid of valid cells and reading it back gives the grid, and the placement holds no space. |
| ChessPosition.JoinTokens | board.py:80-81 | Space-free tokens joined by a space-free separator make one space-free token. |
| ChessPosition.FenRoundTrip | board.py:45-81 | `to_fen` followed by `_load_fen` gives back any position that FEN represents faithfully. |
| ChessRules.FirstOnRay | board.py:124-133 | The square a slider's ray stops at is on the board and occupied. |
| ChessRules.FindFrom | board.py:102-108 | The scan from a square finds the first matching cell in reading order, and no earlier cell matches. |
| ChessRules.FindKing | board.py:102-108 | `find_king` returns the first square in reading order that holds the king of the given colour. None means there is no such king. |
| ChessRules.Promotions | board.py:179-195 | A pawn reaching the last rank gives four moves, one per promotion piece. |
| ChessRules.PawnCapture | board.py:185-198 | Pawn captures start on the pawn's square and have the shape of a pawn move, with a promotion letter exactly when they reach the last rank. |
| ChessRules.PawnForward | board.py:176-183 | Pawn pushes start on the pawn's square and have the shape of a pawn move, with a promotion letter exactly when they reach the last rank. |
| ChessRules.PawnMoves | board.py:170-198 | Every pawn move starts on the pawn's square and has the shape of a pawn move, with a promotion letter exactly when it reaches the last rank. |
| ChessRules.StepMoves | board.py:200-224 | Knight and king steps start on the piece's square and never land on a piece of the same colour; king steps move at most one file. |
| ChessRules.SlideRay | board.py:206-218 | The moves along one ray start on the slider's square and carry no promotion. |
| ChessRules.SlideMoves | board.py:206-218 | The slider's moves start on its square and carry no promotion. |
| ChessRules.CastleMoves | board.py:225-245 | Castling moves go from the e-file to the g- or c-file on the king's own back rank. |
| ChessRules.DirTables | constants.py:54-58 | Every entry of the direction tables is a step of at most one square in each direction. |
| ChessRules.Pseudo | board.py:161-246 | `_pseudo` gives moves from the given square. An empty square gives none. Only pawns promote. A king moves one file or castles from e1/e8 to g or c. |
| ChessRules.SetCell | board.py:288-308 | Writing one cell changes that cell only. |
| ChessRules.RemoveFirst | board.py:318-331 | Removing a castling flag removes exactly one occurrence. |
| ChessRules.DropCorner | board.py:323-331 | A move from or to a rook's corner drops that corner's flag if present, and otherwise leaves the flags unchanged. |
| ChessRules.NextEp | board.py:311-315 | The en-passant field names the skipped square after a two-square pawn push, and is "-" otherwise. |
| ChessRules.SideEffects | board.py:288-299 | Before the move itself, a pawn capturing en passant empties the captured pawn's square, and castling empties the rook's corner (h or a file) and puts the mover's rook beside the king (f or d file). No other cell changes. |
| ChessRules.MovedGrid | board.py:288-308 | The origin empties and the target receives the piece or its promotion: the chosen letter, or a queen for a pawn reaching the last rank without one. The pawn taken en passant is removed, castling moves the mover's rook from h to f or from a to d, and no other cell changes. |
| ChessRules.Place | board.py:301-308 | The target takes the piece, or the promoted piece when there is one. The origin empties, and no other cell changes. |
| ChessRules.ApplyRaw | board.py:267-337 | The position after a move is well formed. The side to move flips, and the fullmove number grows after Black's move. The halfmove clock resets on a pawn move or capture and otherwise grows. The en-passant field names the skipped square exactly after a double push. |
| ChessRules.MoverFlagsShrink | board.py:318-322 | A king's move removes both of its side's castling flags, and no flag is added. |
| ChessRules.FlagsAfterShrink | board.py:318-331 | The flags after a move are some of the flags before it, with no '-'. |
| ChessRules.FlagsAfterFromCorner | board.py:323-326 | A rook leaving its corner loses that corner's flag. |
| ChessRules.FlagsAfterToCorner | board.py:327-331 | A move onto a rook's corner removes that corner's flag. |
| ChessRules.UpdateCastlingShrinks | board.py:318-331 | Castling rights only shrink, an emptied field becomes "-", and the king and corner rules each remove their flag. |
| ChessRules.CastlingShrinks | board.py:267-337 | The same castling facts hold for the position `_apply_raw` returns. |
| ChessRules.KeepSafe | board.py:250-263 | A move is kept iff it was generated and does not leave the mover's king in check. |
| ChessRules.LegalFromMembers | board.py:250-263 | The scan from a square collects exactly the legal moves whose origin is at or after it. |
| ChessRules.SquareMembers | board.py:253-262 | One square contributes exactly the legal moves of its own piece. |
| ChessRules.LegalMovesExactly | board.py:250-263 | A move is in `legal_moves` iff it is pseudo-legal for one of the mover's pieces and leaves its king safe. |
| ChessRules.LegalMovesSafe | board.py:250-263 | No legal move leaves the mover in check. |
| ChessSan.LegalOnBoard | board.py:250-263 | Every legal move starts and ends on the board. |
| ChessSan.Ambiguous | board.py:425-435 | The rival moves are exactly the other legal moves of the same kind of piece to the same square with the same promotion. |
| ChessSan.CleanPlain | opening_book.py:78-83 | Removing '+', '#' and 'x' leaves a text without them unchanged. |
| ChessSan.CleanAppend3 | opening_book.py:83 | Removing the marks from a SAN drops only its capture 'x'. |
| ChessSan.HeadTailPlain | board.py:404-441 | The piece letter, disambiguation and target part of a SAN contain no '+', '#' or 'x'. |
| ChessSan.DisambiguationPlain | board.py:425-435 | A disambiguation is a file letter, a rank digit or both, with no marks. |
| ChessSan.SanTailPlain | board.py:436-441 | The target square and promotion suffix contain no marks. |
| ChessSan.CleanBuildSan | board.py:404-441 | A SAN with its marks removed is "O-O", "O-O-O", or the key made of the piece part, the target and the promotion. |
| ChessSan.LegalPseudo | board.py:250-263 | A legal move is a pseudo-legal move of one of the mover's own pieces. |
| ChessSan.PseudoKind | board.py:161-246 | A generated move comes from a real piece, lands on the board, and only a pawn's move carries a promotion letter. |
| ChessSan.PseudoPawn | board.py:170-198 | A pawn's generated move has the shape of a push or a capture. |
| ChessSan.PseudoCastle | board.py:225-245 | A castling move stays on the king's back rank and carries no promotion. |
| ChessSan.LegalKind | board.py:250-263 | A legal move moves a piece of the side to move, and only a pawn promotes. |
| ChessSan.PromotionNeedsLetter | board.py:176-198 | A pawn that reaches the last rank must promote, so a legal promotion's move without its letter is not legal. |
| ChessSan.NotStationary | board.py:161-246 | No generated move leaves its piece where it was. |
| ChessSan.LeaperNotStationary | board.py:200-245 | Knight and king moves change square. |
| ChessSan.SliderNotStationary | board.py:206-218 | Bishop, rook and queen moves change square. |
| ChessSan.StepNotStationary | board.py:200-224 | A step never lands on its origin square. |
| ChessSan.SlideNotStationary | board.py:206-218 | A slide never lands on its origin square. |
| ChessSan.RayAway | board.py:210-218 | Every square along a ray lies away from the origin. |
| ChessSan.TailShape | board.py:436-441 | The target part is two characters, or four with a promotion ending in a capital. |
| ChessSan.TailInjective | board.py:436-441 | The target part determines the target square and the promotion. |
| ChessSan.KeyHead | board.py:416-435 | A pawn's SAN starts with at most its file letter; any other piece's SAN starts with its capital letter. |
| ChessSan.PawnSameFile | board.py:170-198 | Two pawn moves from the same file to the same square with the same promotion are the same move. |
| ChessSan.PawnRows | board.py:170-198 | A legal pawn move reaches its target by a pawn's step. |
| ChessSan.QuietPawnStraight | board.py:176-198 | A pawn move that captures nothing stays on its file. |
| ChessSan.PawnKeyUnique | board.py:418-422 | Two legal pawn moves with the same SAN are the same move. |
| ChessSan.DisambiguationDistinct | board.py:425-435 | Two rival moves from different squares get different disambiguations. |
| ChessSan.PieceKeyUnique | board.py:424-435 | Two legal moves of the same kind of piece with the same SAN are the same move. |
| ChessSan.KeySplit | board.py:404-441 | Equal SAN keys have equal piece parts, targets and promotions. |
| ChessSan.HeadKind | board.py:416-435 | Equal piece parts mean the same kind of piece. |
| ChessSan.KeyUnique | board.py:404-441 | Two legal moves with the same SAN key are the same move. |
| ChessSan.CastleUnique | board.py:412-414 | At most one legal move castles to each side. |
| ChessSan.KeyNotCastle | board.py:412-441 | A non-castling SAN is never "O-O" or "O-O-O". |
| ChessSan.SanUnique | board.py:404-441 | Distinct legal moves have distinct SAN, even with check marks and captures removed. |
| ChessSan.UciOf | board.py:85 | The UCI text of a move: four characters naming the two squares, plus the promotion letter if any. |
| ChessSan.FirstMatch | opening_book.py:80-89 | The first legal move whose SAN matches, cleaned or exactly; None iff no move matches. |
| ChessSan.SanToUciSound | opening_book.py:76-89 | A SAN that is resolved names a legal move whose cleaned SAN equals the cleaned input. |
| ChessSan.SanToUciComplete | opening_book.py:76-89 | Any text whose cleaned form is a legal move's cleaned SAN resolves to that move's UCI. |
| ChessSan.BuildSanToUci | board.py:404-441 | Resolving the SAN `_build_san` writes for a legal move gives back that move. |
| EngineProtocol.SetIntField | engine.py:231-253 | Recording one integer field sets that field and leaves the score, the pv and the other integer fields as they were. |
| EngineProtocol.KindOf | engine.py:238 | Only "cp" and "mate" are score kinds. |
| EngineProtocol.Take5 | engine.py:254-255 | The pv keeps at most the first five moves, and all of them when there are five or fewer. |
| EngineProtocol.ParseTokens | engine.py:229-257 | When the scan sets a pv, that pv has at most five moves. |
| EngineProtocol.ParseInfo | engine.py:224-257 | The token loop of `_parse_info` computes the info record the line denotes. |
| EngineProtocol.IntFieldSource | engine.py:231-253 | Every integer field in the result was read from a key token followed by a readable integer. |
| EngineProtocol.ScoreSource | engine.py:236-243 | A score in the result was read from "score", a kind and a readable integer. |
| EngineProtocol.MalformedValueSkipped | engine.py:231-256 | A key whose value is unreadable is skipped one token at a time, so its value can be read as the next key. |
| EngineProtocol.KindText | engine.py:238 | The name of a score kind reads back as that kind. |
| EngineProtocol.IntPartRead | engine.py:231-253 | A key followed by its integer sets that field and scanning goes on after them. |
| EngineProtocol.ScorePartRead | engine.py:236-243 | "score", a kind and an integer set the score and scanning goes on after them. |
| EngineProtocol.PvPartRead | engine.py:254-255 | "pv" ends the scan and keeps at most five moves. |
| EngineProtocol.RenderRoundTrip | engine.py:224-257 | Parsing the tokens that render an info record gives that record back, with the pv cut to five moves. |
| EngineProtocol.InfoLineRoundTrip | engine.py:224-257 | The same round trip through a whole "info …" line. |
| EngineProtocol.BestMoveOf | engine.py:170-174 | A best move is reported iff the line has a second token that is not "(none)", "null" or "0000", and then it is that token. |
| EngineProtocol.BestMoveReply | engine.py:170-174 | "bestmove m …" with a real move m yields m. |
| EngineProtocol.NullBestMove | engine.py:170-174 | "bestmove" alone, or followed by a null move, yields no move. |
| EngineProtocol.Merge | engine.py:167 | `dict.update`: each field is the newer value if present, else the older one. |
| EngineProtocol.FirstBest | engine.py:156-174 | The reading stops at the first "bestmove" line, and no line before it is one. |
| EngineProtocol.ReadSearch | engine.py:156-176 | The read loop of `get_best_move` returns the best move of the first "bestmove" line, or none. `last_info` merges every info line before that line. |
| EngineProtocol.ReadLine | engine.py:163-174 | One line either stops the loop with its best move, or merges an info line into `last_info`, or is ignored. |
| EngineProtocol.InfoNotBest | engine.py:165-170 | No line is both an info line and a bestmove line. |
| EngineProtocol.GatheredStep | engine.py:165-168 | Reading one more info line merges it into what was gathered. |
| EngineProtocol.LineScores | engine.py:209-213 | One optional score per line, in order. |
| EngineProtocol.GatheredScore | engine.py:209-213 | The score gathered is the last score any line reported. |
| EngineProtocol.GatheredScoreSnoc | engine.py:209-213 | A later score replaces an earlier one, and a line without one keeps it. |
| EngineProtocol.Centipawns | engine.py:216-220 | A centipawn score is kept; a mate score becomes +30000 when positive and −30000 otherwise. |
| EngineProtocol.MateOutranks | engine.py:216-220 | A mate for the side to move outranks every centipawn score strictly between −30000 and 30000, and a mate against it is below every such score. |
| EngineProtocol.GetEval | engine.py:199-220 | None iff no line before "bestmove" carries a score. Otherwise it is the centipawn value of the last such score. |
| EngineProtocol.WhiteView | engine.py:300-331 | The score from White's side is the engine's score, negated when Black is to move. |
| EngineProtocol.WhiteViewFlips | engine.py:300-331 | One more move in the history flips the sign of the reported score. |
| EngineProtocol.MoveCount | engine.py:300 | Splitting a space-joined move list counts its moves. |
| EngineProtocol.OneMoreFlips | engine.py:300-331 | A history one move longer flips the sign. |
| EngineProtocol.EvalPosition | engine.py:270-333 | No score before "bestmove" gives (None, None). Otherwise the result is the last score from White's side, with its kind. |
| EngineProtocol.AcceptsUnpadded | engine.py:116 | For a line that starts with no space, the `_wait` test is `startswith`. |
| EngineProtocol.AcceptsPadded | engine.py:116 | The keyword surrounded by whitespace is accepted through `strip`. |
| EngineProtocol.LStripSpaces | engine.py:116 | `strip` removes leading whitespace. |
| EngineProtocol.RStripSpaces | engine.py:116 | `strip` removes trailing whitespace. |
| EngineProtocol.Wait | engine.py:108-121 | `_wait` succeeds iff some line of the reply passes the keyword test. |
| TournamentManagement.Ids | tournament.py:3410-3411 | The ids of the entries, in order. |
| TournamentManagement.FindId | tournament.py:3410-3413 | The scan stops at the first entry with the id, and none before it has the id. The length means no entry has it. |
| TournamentManagement.FindIdFound | tournament.py:3410-3415 | The scan finds a position iff the id is registered. |
| TournamentManagement.UpsertedContents | tournament.py:3408-3416 | After `register` the new entry is listed. The list grows by one exactly when the id was new. Entries with other ids stay, and nothing else is added. |
| TournamentManagement.UpsertedPlace | tournament.py:3410-3416 | A new id goes to the front, with the rest unchanged. A known id is replaced in place at its first position. |
| TournamentManagement.UpsertedDistinct | tournament.py:3408-3416 | Registering keeps the ids distinct. |
| TournamentManagement.UpsertedIdempotent | tournament.py:3408-3421 | Registering the same tournament twice (`update` after `register`) has the effect of registering it once. |
| TournamentManagement.FindIdAt | tournament.py:3410-3413 | The first matching position found by the loop is the one `FindId` names. |
| TournamentManagement.Manager.constructor | tournament.py:3403-3405 | A new manager has no entries. |
| TournamentManagement.Manager.Register | tournament.py:3408-3442 | The loop replaces the entry with the tournament's id in place, or inserts a new one at the front, and keeps the ids distinct. |
| Openings.UciLooksLikeUci | opening_book.py:67-73 | Every move's UCI text passes the heuristic. |
| Openings.LooksLikeUciReadable | opening_book.py:53-59 | A token that passes the heuristic is read by `apply_uci`, which rejects it only as an illegal move. |
| Openings.SanToUciResolves | opening_book.py:60-64 | The UCI text found for a SAN token is accepted by `apply_uci` and names a legal move whose SAN matches the token. |
| Openings.Cons | opening_book.py:56-64 | Prepending a move keeps success or failure, and on success adds the move in front. |
| Openings.Then | opening_book.py:49-65 | Prefixing keeps success or failure. |
| Openings.After | opening_book.py:55-63 | The board after an accepted move is well formed. |
| Openings.Step | opening_book.py:50-64 | A token yields a move text iff it is accepted as UCI or resolves as SAN. The text yielded is always accepted and looks like UCI. |
| Openings.TokensFromLegal | opening_book.py:45-65 | A converted row has one move per non-blank token, each move is legal in turn from the start, and each looks like UCI. |
| Openings.TokensFromShape | opening_book.py:45-65 | A conversion that succeeds has one UCI-looking move per non-blank token. |
| Openings.TokensFromPlays | opening_book.py:45-65 | The converted moves can be played in order from the starting position. |
| Openings.UnresolvableToken | opening_book.py:60-62 | A token that is neither an accepted UCI move nor a resolvable SAN makes the whole row fail. |
| Openings.UciTexts | opening_book.py:45-65 | One UCI text per move of a game. |
| Openings.UciToken | opening_book.py:53-57 | A legal move's UCI text is taken as-is, and it plays that move. |
| Openings.UciGameRoundTrip | opening_book.py:45-65 | Converting the UCI texts of a legal game gives those texts back. |
| Openings.RowEntry | opening_book.py:30-39 | A row yields at most one entry. |
| Openings.RowEntryLegal | opening_book.py:31-39 | A row that yields an entry had a non-blank moves field; its moves are non-empty, legal from the start and UCI-looking; its ECO and name are stripped. |
| Openings.SplitNonBlank | opening_book.py:33-36 | A non-blank moves field splits into at least one token. |
| Openings.OpeningBook.constructor | opening_book.py:19-22 | Without a file the book is empty; with one it holds the converted rows sorted longest first. |
| Openings.OpeningBook.Load | opening_book.py:26-41 | The book holds its earlier entries plus the converted rows, sorted longest first. |
| Openings.OpeningBook.ConvertRow | opening_book.py:31-39 | The row loop yields the entry the row denotes, or none. |
| Openings.OpeningBook.TokensToUci | opening_book.py:45-65 | The token loop over a fresh board computes the conversion of the tokens from the starting position. |
| Openings.OpeningBook.Lookup | opening_book.py:93-112 | Both parts are None iff no entry begins the played moves. Otherwise they are the ECO and name of an entry that does. |
| Openings.OpeningBook.Loaded | opening_book.py:116-119 | `loaded` iff at least one entry is held. |
| Openings.PlayToken | opening_book.py:50-64 | One token step: the move text yielded is the one `Step` defines, and the board then holds the position after it. |
| Openings.TokensFromNext | opening_book.py:49-65 | A blank token is skipped, an unresolved token fails the row, and a resolved token is played before the rest is converted. |
| Openings.LookupLongest | opening_book.py:93-112 | The entry found is a longest entry that begins the played moves. |
| Openings.LookupFirstInFile | opening_book.py:93-112 | Among entries of that length, the one found is the first in the file. |
| Openings.LoadedIff | opening_book.py:30-41 | The book is loaded iff some row of the file yields an entry. |
| Pairing.WhiteScore | tournament.py:507-512 | White scores 2, 1 or 0 half-points exactly for "1-0", "1/2-1/2" and "0-1", and nothing for any other result. |
| Pairing.ScoresShareOnePoint | tournament.py:507-517 | Both scores exist together and sum to one point, and a side outscores the other exactly when its result says it won. |
| Pairing.KeyLessOrder | tournament.py:528 | The Swiss sort key (−score, −wins, name) is a strict order: irreflexive and transitive. |
| Pairing.InsertByKey | tournament.py:528 | Inserting by key adds one element. |
| Pairing.SortByKey | tournament.py:528 | Sorting keeps the length. |
| Pairing.SortByKeyMultiset | tournament.py:528 | The sort is a permutation of the keyed players. |
| Pairing.SortByKeyValues | tournament.py:528 | The players after the sort are the players before it. |
| Pairing.SortByKeySorted | tournament.py:528 | After the sort, no player's key is below an earlier player's. |
| Pairing.SortByKeyStable | tournament.py:528 | The sort is stable: the elements with any one key keep their input order. |
| Pairing.Values | tournament.py:528 | The players of a keyed list, in order. |
| Pairing.FirstFresh | tournament.py:558-564 | The partner chosen is the first one not yet met. When everyone has been met it is the first in the list. |
| Pairing.Without | tournament.py:562 | Removing the chosen partner removes exactly that one player. |
| Pairing.BacktrackPair | tournament.py:551-568 | The pairing order has as many players as it was given. |
| Pairing.BacktrackPairPermutes | tournament.py:551-568 | `_backtrack_pair` returns a permutation of the players. |
| Pairing.BacktrackPairHead | tournament.py:551-568 | The top player is paired first, with the first player not yet met if there is one, and otherwise with the next player in line. |
| Pairing.BracketSize | tournament.py:621-624 | The bracket size is the least power of two not below the number of players. |
| Pairing.Bracket | tournament.py:619-628 | The bracket has half the bracket size in pairs. |
| Pairing.SeedBracket | tournament.py:619-628 | The pairing loop builds that bracket. |
| Pairing.BracketByes | tournament.py:619-628 | Seed i meets seed size−1−i. The top seeds fill the first slots, and exactly the first size−n slots have a bye. |
| Pairing.BracketSeatsEveryone | tournament.py:619-628 | Every player is seated in the first bracket. |
| Pairing.KnockoutPairs | tournament.py:631-640 | A round of n winners has ⌊n/2⌋ pairs. |
| Pairing.KnockoutPairsPlayers | tournament.py:636-639 | Pair k seats the (2k)-th and (2k+1)-th shuffled winners, in an order the coin picks. |
| Pairing.NextRound | tournament.py:631-640 | The pairing loop builds those pairs. |
| Pairing.KnockoutPairsDistinct | tournament.py:631-640 | Distinct winners never meet themselves. |
| Players.Player.constructor | tournament.py:461-473 | A new player has no points, no games, no tie-breaks and empty histories. |
| Players.Player.Record | tournament.py:475-485 | The result is added to the score and exactly one of wins, draws, losses goes up, so `games_played` grows by one. The colour and opponent are appended, and the tie-breaks and seed are unchanged. |
| Players.Game.constructor | tournament.py:492-505 | A new game is pending, with no result and an empty record. |
| Players.Game.File | tournament.py:755-765 | The game holds its result and record, with `opening or ""` and `eval_history or []`; the move count is the history's length, and the game is done. |
| Players.IndexOf | tournament.py:842-844 | `list.index`: the first position of the name, defined iff it is present. |
| Players.Keyed | tournament.py:528 | Each player paired with its sort key, in roster order. |
| Players.Ranked | tournament.py:528 | Ranking keeps the number of players. |
| Players.RankedPermutes | tournament.py:528 | Ranking is a permutation of the players, sorted by their keys. |
| RoundRobin.Padded | tournament.py:586-590 | An odd roster gets one empty seat at the end, and an even one is unchanged. |
| RoundRobin.PaddedDistinct | tournament.py:586-590 | Padding keeps the seats distinct. |
| RoundRobin.RotateRight | tournament.py:605 | The last rotating player moves to the front, and the others shift one place. |
| RoundRobin.Circle | tournament.py:594 | The fixed player followed by the rotating ones: the whole roster. |
| RoundRobin.CircleAt | tournament.py:594-605 | In round k every player sits at a known position of the circle. |
| RoundRobin.CircleDistinct | tournament.py:594-605 | A distinct roster gives a circle of distinct seats. |
| RoundRobin.Swapped | tournament.py:609-612 | Swapping colours keeps the number of games. |
| RoundRobin.PairSeats | tournament.py:595-603 | The pairing loop of one round seats position i against position n−1−i and skips empty seats. |
| RoundRobin.SingleCycle | tournament.py:593-605 | The rounds loop builds n−1 rounds, round k being the circle after k rotations. |
| RoundRobin.ReverseColours | tournament.py:608-612 | The return cycle repeats each round with colours swapped. |
| RoundRobin.GenerateAllRounds | tournament.py:584-614 | `generate_all_rounds` computes the schedule. |
| RoundRobin.ScheduleLength | tournament.py:584-614 | The schedule has n−1 rounds, or 2(n−1) with a double cycle, n being the padded roster size. |
| RoundRobin.DoubleReversesColours | tournament.py:608-613 | In a double cycle, round half+k is round k with every game's colours reversed. |
| RoundRobin.SlotsSeated | tournament.py:595-603 | Within a round no player plays twice. |
| RoundRobin.RoundNoRepeats | tournament.py:593-605 | Every round seats each player at most once. |
| RoundRobin.SlotsMeet | tournament.py:595-603 | Two players meet in a round iff their seats face each other across the circle. |
| RoundRobin.FaceOnce | tournament.py:593-605 | Over the n−1 rotations, any two seats face each other exactly once. |
| RoundRobin.MeetExactlyOnce | tournament.py:584-614 | In a single cycle every two players meet in exactly one round. |
| RoundRobin.MeetsInRound | tournament.py:593-605 | Two players meet in round k iff their circle positions face each other. |
| RoundRobin.SeatOf | tournament.py:593-605 | Every player has a seat in every round's circle. |
| Swiss.CardOf | tournament.py:571-579 | A player's colour card belongs to that player. |
| Swiss.Entries | tournament.py:527-528 | Each player with its (−score, −wins, name) key, in roster order. |
| Swiss.AssignColors | tournament.py:571-579 | The player with the larger black-minus-white count takes White. On a tie, a player whose last game was with Black takes White, the first player checked first. Otherwise the coin decides. The result is always the two given players. |
| Swiss.LastWithoutBye | tournament.py:533-535 | The scan from the bottom finds the lowest-ranked player without a previous bye, and every player below it has had one. |
| Swiss.RemoveFirst | tournament.py:536 | Removing the bye player removes exactly one player. |
| Swiss.Unbyed | tournament.py:532-539 | A bye is set aside iff the number of players is odd, leaving an even number to pair. |
| Swiss.ColourPairs | tournament.py:542-546 | One coloured game per two paired players. |
| Swiss.SetAsideBye | tournament.py:532-539 | The bye loop computes the set-aside players and the bye. |
| Swiss.ColourAll | tournament.py:542-546 | The colouring loop computes the coloured pairs. |
| Swiss.Pair | tournament.py:526-548 | `SwissPairing.pair` computes the Swiss plan. |
| Swiss.SwissRankingSorted | tournament.py:527-528 | The pairing order is sorted by key and is a permutation of the roster. |
| Swiss.SwissPartition | tournament.py:526-548 | The games and the bye together seat every player of the roster exactly once. The bye exists iff the roster is odd. |
| Swiss.SwissByeOnRoster | tournament.py:532-539 | The bye player is on the roster. |
| Swiss.SwissBye | tournament.py:532-539 | The bye goes to the lowest-ranked player who never had one, and to the lowest-ranked player if all have. |
| Swiss.SwissColours | tournament.py:541-546 | Game k is the colour assignment of the (2k)-th and (2k+1)-th players in `_backtrack_pair` order, with coin k. |
| Swiss.ColourPairsPlayers | tournament.py:542-546 | The coloured games seat exactly the paired players. |
| Tournaments.PendingGames | tournament.py:851-852 | Only pending games of the round are listed, and every pending one is. |
| Tournaments.CompletedGames | tournament.py:858-859 | Only finished games are listed, and every finished one is. |
| Tournaments.NextGameFirstPending | tournament.py:854-856 | The next game is the earliest pending game of the round. There is none iff no game is pending. |
| Tournaments.RoundCompleteNoNextGame | tournament.py:781-782 | Once the round is complete there is no next game. |
| Tournaments.FullPairs | tournament.py:721-730 | The games of the first knockout round are some of the bracket's slots. |
| Tournaments.Survivors | tournament.py:722-726 | The players who advance by a bye are some of the bracket's slots. |
| Tournaments.FirstRoundSplit | tournament.py:719-731 | With e = size − n, the top e seeds advance by bye, in seed order. Every later slot j plays seed e+j against seed n−1−j. |
| Tournaments.BracketLowerHalf | tournament.py:619-628 | The first slots hold the top seeds. The first size−n slots face an empty seat, and every later slot faces the seed mirrored from the bottom. |
| Tournaments.ScoreMapLast | tournament.py:823 | The score map gives each name the score of the last player with that name, as a dict comprehension does. |
| Tournaments.ScoreMapKeys | tournament.py:823 | The score map has exactly the roster's names as keys. |
| Tournaments.BuchholzSkipsByes | tournament.py:825 | A bye adds nothing to the Buchholz sum. |
| Tournaments.BuchholzMonotone | tournament.py:825 | With non-negative scores, the Buchholz sum is non-negative and never shrinks as opponents are added. |
| Tournaments.SonnebornOwnGames | tournament.py:826-833 | Only a player's own games count toward its Sonneborn-Berger sum. |
| Tournaments.SonnebornNonNegative | tournament.py:826-833 | With non-negative scores the Sonneborn-Berger sum is non-negative. |
| Tournaments.Names | tournament.py:840 | The eliminated players' names, in elimination order. |
| Tournaments.Standings | tournament.py:835-849 | The standings list every player once. |
| Tournaments.StandingsRank | tournament.py:835-849 | The standings are a permutation of the roster, sorted by the format's key. Swiss uses score, Buchholz, Sonneborn and name; round robin uses score, wins and name; knockout uses elimination order, score and name. |
| Tournaments.StandingsKept | tournament.py:835-849 | The standings depend only on the players' fields, so they are the same while the players are unchanged. |
| Tournaments.StandingsTop | tournament.py:813-849 | No player ranks strictly above the head of the standings, the player `_finish` makes the winner. |
| Tournaments.KnockoutAdvanceWinner | tournament.py:768-779 | The winner of a decided knockout game advances and the loser is eliminated. A draw is settled by the coin, and the two players are split between advancing and eliminated. |
| Tournaments.Tournament.constructor | tournament.py:651-689 | A new tournament has no games, round 0, empty histories and no winner. A round robin holds its schedule, and its round count is the schedule's length. |
| Tournaments.Tournament.AddGame | tournament.py:702-705 | A new pending game of the current round is appended to `round_games` and `all_games`. |
| Tournaments.Tournament.AddGames | tournament.py:702-716 | The round's games are fresh pending games for the given pairs, in order, and are also appended to `all_games`. |
| Tournaments.Tournament.SwissRound | tournament.py:700-709 | The round advances with the games of the Swiss plan. The bye is a roster player credited with a win against "BYE" and added to `bye_history`. No other player changes. |
| Tournaments.Tournament.PlaySwissRound | tournament.py:700-709 | The same, for a plan that has been made. |
| Tournaments.Tournament.SeatBye | tournament.py:706-709 | The bye player is credited with a win against "BYE" as White, and nothing else changes. |
| Tournaments.Tournament.RoundRobinRound | tournament.py:711-717 | The round advances with the scheduled round's games, or none past the end of the schedule. |
| Tournaments.Tournament.KnockoutFirstRound | tournament.py:719-731 | The first knockout round has the bracket's games, the players facing an empty seat wait for the next round, and the round's games are recorded. |
| Tournaments.Tournament.KnockoutNextRound | tournament.py:732-744 | With at most one player waiting, the tournament ends with that player, or the top of the standings, as winner. Otherwise the waiting players are shuffled and paired. |
| Tournaments.Tournament.PairWaiting | tournament.py:738-744 | The round's games are the pairs of some shuffle of the waiting players, and they are recorded for the round. |
| Tournaments.Tournament.Finish | tournament.py:812-818 | The tournament is finished, and the winner is the head of the standings unless one was already set. |
| Tournaments.Tournament.GenerateRound | tournament.py:696-744 | The round number grows by one and the round's games are appended, and the tie-breaks are untouched. For each format the round is the one `_generate_round` makes: the Swiss plan made on the standings before the round, with the bye credited with a win and every other player unchanged; the scheduled round; the seeded bracket in round one; later, the pairs of a shuffle of the waiting knockout players, or the end with the winner when at most one waits. |
| Tournaments.Tournament.KnockoutRound | tournament.py:719-744 | The knockout branch opens the bracket in round one and pairs the waiting players afterwards. |
| Tournaments.Tournament.SonnebornSum | tournament.py:827-833 | The loop over `all_games` computes the player's Sonneborn-Berger sum. |
| Tournaments.Tournament.UpdateBuchholz | tournament.py:820-833 | In a Swiss event every player's Buchholz and Sonneborn-Berger sums are recomputed from the scores before the update. Other formats are untouched. Records never change. |
| Tournaments.Tournament.UpdatePlayer | tournament.py:824-833 | One player's two sums are recomputed, and its record is unchanged. |
| Tournaments.Tournament.AdvanceRound | tournament.py:784-810 | The result is done iff the last round was played, or at most one knockout player is waiting. When done, nothing new is paired and the winner is settled. Otherwise the round number grows by one and the next round is the one its format makes: the Swiss plan on the records before the call with its bye credited, the scheduled round, or the pairs of a shuffle of the waiting knockout players. In a Swiss event the tie-break sums are first recomputed from the scores before the call; other formats leave them alone. The played pairs, the start flag and the eliminated players are kept. When done, the byes given, the knockout's waiting list and round record, and every player's record are kept. |
| Tournaments.Tournament.AdvanceSwiss | tournament.py:784-791 | In a Swiss event the tie-break sums are recomputed from the scores before the call. The event is done iff its last round was played, and then it finishes with the head of the standings as winner when none was set. Otherwise the next round is the Swiss plan made on the records before the call, which the recomputation does not change, with its bye credited and the knockout state kept. The played pairs, the start flag and the eliminated players are kept. When done, the byes given, the knockout's waiting list and round record, and every player's record are kept. |
| Tournaments.Tournament.CloseRound | tournament.py:784-810 | The format branches of `advance_round` after the tie-break update: the same done condition and outcomes, the tie-breaks untouched, and when not done the round its format makes, as `_generate_round` makes it. The played pairs, the start flag and the eliminated players are kept. When done, every player, the byes given and the knockout's waiting list and round record are kept. |
| Tournaments.Tournament.Conclude | tournament.py:791-818 | Ending: the tournament is finished. A knockout's winner is the one remaining player, or else the head of the standings; any other format keeps a winner already set, else takes the head of the standings. The round, the games, the played pairs, the byes given, the start flag and the knockout's lists and round record are kept. |
| Tournaments.Tournament.MakeNextRound | tournament.py:793-807 | Generating the next round advances it, with the round its format makes: the Swiss plan with its bye, the scheduled round, or the pairs of a shuffle of the waiting knockout players. |
| Tournaments.Tournament.Start | tournament.py:691-694 | Starting marks the tournament started and makes the first round as its format makes it: the Swiss plan with its bye, the scheduled round, or the seeded bracket. The played pairs and the eliminated players are kept. |
| Tournaments.Tournament.RecordGameResult | tournament.py:746-779 | The game holds its result and is done, and the pair is marked as played. A decisive or drawn result is recorded for both players. In a knockout the winner, or the coin's choice on a draw, advances and the other is eliminated. |
| Tournaments.Tournament.SettleKnockout | tournament.py:768-779 | A knockout game with a result adds one player to the waiting list and the other to the eliminated list. |
| Tournaments.CreditSides | tournament.py:762-766 | Both players' records take the game's result, with the colours and opponent names, when the result is one of the three scores. |
| GameRunner.Normalize | tournament.py:1352-1366 | `strip().lower()` keeps the stripped text's length. |
| GameRunner.UcisOf | tournament.py:1341-1346 | The set of legal UCI strings holds exactly the UCI text of each legal move. |
| GameRunner.Judge | tournament.py:1373-1381 | An accepted text resolves to one of the legal moves, and it comes from a chosen text with its book flag kept. A rejection forfeits the game to the side not on move. |
| GameRunner.TurnSound | tournament.py:1350-1381 | For every book state, probe and reply, an accepted move is legal, and its UCI text is the text played. A forfeit is a loss for the side to move. |
| GameRunner.LegalTextMove | tournament.py:1341-1384 | A text in the legal set resolves to a move whose UCI text is that text. |
| GameRunner.BookMoveLegal | tournament.py:1350-1366 | A book move is taken only while the book is on and fewer than 20 book moves were used, and only when it is legal, so it is then accepted. Any other chosen move is the engine's normalised reply. |
| GameRunner.NoReplyForfeits | tournament.py:1368-1371 | With no book move and an empty or missing reply, the side to move loses by "returned no move". |
| GameRunner.NormalizeUci | tournament.py:1344-1366 | The UCI text of a move is unchanged by normalisation. |
| GameRunner.ReplyChosen | tournament.py:1358-1366 | Without a book move, a non-empty reply is chosen, normalised, as an engine move. |
| GameRunner.JudgeLegal | tournament.py:1373 | The UCI text of a legal move is accepted as that move. |
| GameRunner.LegalReplyPlayed | tournament.py:1358-1384 | An engine reply that normalises to a legal move's UCI text is played as that move. |
| GameRunner.UcisOfLength | tournament.py:1344-1346 | Every legal UCI text has 4 or 5 characters. |
| GameRunner.PrefixMatchIsPromotion | tournament.py:1374-1376 | An illegal 4-character text whose prefix matches a legal text matches only a 5-character promotion text. |
| GameRunner.PromotionSquaresNotLegal | tournament.py:1374-1377 | A legal promotion's squares alone are not a legal UCI text. |
| GameRunner.JudgePromotion | tournament.py:1373-1377 | A queen promotion sent without its letter is completed with "q" and accepted as the promotion. |
| GameRunner.DroppedLetterQueens | tournament.py:1358-1377 | An engine reply naming only a queen promotion's squares is played as that promotion. |

## Left out

- The user interface (`dialogs.py`, `main.py`, `loading_screen.py`) is not part of this model. Neither are the tournament windows, or the `set_window`/`get_window` map and the `win` argument of `register`.
- The threads, the pause and stop flags, and the sleeping of the game runner are left out, because they are concurrency.
- The database (`database.py`) and the Elo ratings (`elo.py`) are not part of this model.
- PGN export, the clock (`datetime`, `created_at`, game durations), and `id()`-based identifiers are left out, because they are I/O or the clock. A tournament's id and name are given as parameters.
- `normalize_engine_name` is left out: a player's name is taken as already normalised.
- The engine processes are left out: starting and stopping them, writing commands, the reader thread, `_drain`, the timeouts, and the `alive`/`ready` checks that return early in `get_eval` and `eval_position`. The parsers work on the sequence of lines the engine would print.
- The `_play_game` loop beyond accepting a move is left out: pausing, the engine-died forfeit, emitting signals, and saving the game. The game-over test it calls is modelled as `ChessEnd.GameResult`.
- `_book_probe` and `_lookup_opening` are given as inputs (the probe's text). The book's own lookup is modelled in `Openings`.
- The `legal_ucis is None` path of `_play_game` is left out. It is taken only when `legal_moves` raises, which it does not on a well-formed position.
- Reading the book's CSV file and the `os.path.isfile` test are left out, because they are I/O. The file's rows are given as an `Option<seq<Row>>`, `None` when the file is absent.
- Floating-point scores are integers counted in half-points; Sonneborn-Berger sums are counted in quarter-points.
- Strings are sequences of characters: `lower`, `upper` and `strip` are modelled for ASCII only.
- The random number generator is left out. Its draws are oracle parameters.
- `status_msg` texts and the log messages are left out.
- `TournamentManager.update` is `register` under another name and has no member of its own.
- TournamentManagement.Manager.GetAll: has no contract, because it returns a copy of the entries list unchanged.
- Tournaments.Tournament.constructor: requires a non-empty roster for a round robin. On an empty roster the source's `RoundRobinPairing` raises `IndexError` at `players[0]`.
- Tournaments.Tournament.RecordGameResult: states that both players' records take the result only when White and Black are different players. The source never pairs a player with itself.
- Tournaments.CreditSides: states the records only for two different players, for the same reason.
- `is_attacked` and `in_check` have no standalone lemma. They are used by `ChessRules.LegalMoves`, whose contract states what they decide.
