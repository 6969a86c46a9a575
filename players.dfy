/**
 * The records of tournament.py: `TournamentPlayer`, whose running score and
 * counters `record` updates in place, and `TournamentGame`, whose result and
 * status the controller fills in. Scores are in half-points (a win is 2, a
 * draw 1, a loss 0); the Sonneborn-Berger sum, a product of two scores, is
 * in quarter-points.
 */
module Players {
  import opened Common
  import opened Pairing
  import opened ChessBoard

  /** The colour letters `record` files in `color_history`. */
  const White := 'w'
  const Black := 'b'

  /** The opponent name `record` files for a bye. */
  const ByeName := "BYE"

  class Player {
    /** The normalised engine name. */
    const name: string
    const enginePath: string
    /** Points so far, in half-points. */
    var score: int
    var wins: nat
    var draws: nat
    var losses: nat
    /** Sum of the opponents' scores, in half-points. */
    var buchholz: int
    /** Sum of result times opponent score, in quarter-points. */
    var sonneborn: int
    var colorHistory: seq<char>
    var opponents: seq<string>
    var seed: int

    /** `TournamentPlayer(name, engine_path)`: no games, no points. */
    constructor(name: string, enginePath: string)
      ensures this.name == name && this.enginePath == enginePath
      ensures score == 0 && wins == 0 && draws == 0 && losses == 0
      ensures buchholz == 0 && sonneborn == 0 && seed == 0
      ensures colorHistory == [] && opponents == []
    {
      this.name := name;
      this.enginePath := enginePath;
      score := 0;
      wins, draws, losses := 0, 0, 0;
      buchholz, sonneborn := 0, 0;
      colorHistory, opponents := [], [];
      seed := 0;
    }

    /** `games_played`: every recorded game is a win, a draw or a loss. */
    function GamesPlayed(): nat
      reads this
    {
      wins + draws + losses
    }

    /**
     * `record(result, opponent_name, color)`: the result (2, 1 or 0) is added
     * to the score, exactly one of the three counters goes up, and one entry
     * is appended to each history.
     */
    method Record(result: int, opponent: string, color: char)
      modifies this
      ensures Recorded(this, result, opponent, color)
    {
      score := score + result;
      if result == 2 {
        wins := wins + 1;
      } else if result == 1 {
        draws := draws + 1;
      } else {
        losses := losses + 1;
      }
      colorHistory := colorHistory + [color];
      opponents := opponents + [opponent];
    }
  }

  /**
   * The record part of one call of `record(result, opponent, color)`: the
   * new score, counters and histories of `p`.
   */
  twostate predicate Credited(p: Player, result: int, opponent: string, color: char)
    reads p
  {
    && p.score == old(p.score) + result
    && p.wins == old(p.wins) + (if result == 2 then 1 else 0)
    && p.draws == old(p.draws) + (if result == 1 then 1 else 0)
    && p.losses == old(p.losses) + (if result != 2 && result != 1 then 1 else 0)
    && p.GamesPlayed() == old(p.GamesPlayed()) + 1
    && p.colorHistory == old(p.colorHistory) + [color]
    && p.opponents == old(p.opponents) + [opponent]
    && p.seed == old(p.seed)
  }

  /** What one call of `record(result, opponent, color)` does to `p`: its record, with the tie-break sums untouched. */
  twostate predicate Recorded(p: Player, result: int, opponent: string, color: char)
    reads p
  {
    Credited(p, result, opponent, color) && p.buchholz == old(p.buchholz) && p.sonneborn == old(p.sonneborn)
  }

  /** `status` of a game. */
  datatype Status = Pending | Running | Done

  class Game {
    const roundNum: int
    const white: Player
    const black: Player
    var result: Option<string>
    var reason: string
    var pgn: string
    var moveCount: int
    var duration: int
    var opening: string
    var status: Status
    var moveHistory: seq<HistoryEntry>
    var evalHistory: seq<int>

    /** `TournamentGame(round_num, white, black)`: pending, with no result. */
    constructor(roundNum: int, white: Player, black: Player)
      ensures this.roundNum == roundNum && this.white == white && this.black == black
      ensures result.None? && status == Pending && moveHistory == [] && evalHistory == []
      ensures reason == "" && pgn == "" && opening == "" && moveCount == 0 && duration == 0
    {
      this.roundNum := roundNum;
      this.white := white;
      this.black := black;
      result := None;
      reason, pgn, opening := "", "", "";
      moveCount, duration := 0, 0;
      status := Pending;
      moveHistory, evalHistory := [], [];
    }

    /**
     * The filing half of `record_game_result`: the result and the record
     * of the game, `opening or ""` and `eval_history or []`, and the game is done.
     */
    method File(result: string, reason: string, moveHistory: seq<HistoryEntry>, pgn: string,
                duration: int, opening: Option<string>, evalHistory: Option<seq<int>>)
      modifies this
      ensures this.result == Some(result) && status == Done && this.reason == reason && this.pgn == pgn
      ensures moveCount == |moveHistory| && this.duration == duration && this.moveHistory == moveHistory
      ensures this.opening == (if opening.Some? then opening.value else "")
      ensures this.evalHistory == (if evalHistory.Some? then evalHistory.value else [])
    {
      this.result := Some(result);
      this.reason := reason;
      this.pgn := pgn;
      moveCount := |moveHistory|;
      this.duration := duration;
      this.opening := if opening.Some? then opening.value else "";
      this.moveHistory := moveHistory;
      this.evalHistory := if evalHistory.Some? then evalHistory.value else [];
      status := Done;
    }

    /** `white_score`, in half-points. */
    function WhiteScoreNow(): Option<int>
      reads this
    {
      WhiteScore(result)
    }

    /** `black_score`, in half-points. */
    function BlackScoreNow(): Option<int>
      reads this
    {
      BlackScore(result)
    }
  }

  // ---------------------------------------------------------------- ranking keys

  /** The three sort keys tournament.py ranks players by. */
  datatype KeyKind =
    | ByRecord                              // (-score, -wins, name): Swiss pairing, round-robin standings
    | ByTieBreaks                           // (-score, -buchholz, -sonneborn, name): Swiss standings
    | ByElimination(eliminated: seq<string>) // knockout standings, given the eliminated names in order

  /** The first position of `x` in `s` (`list.index`), or `|s|` when it is absent. */
  function IndexOf(s: seq<string>, x: string): (i: nat)
    ensures i <= |s| && (i < |s| <==> x in s)
    ensures i < |s| ==> s[i] == x && forall j :: 0 <= j < i ==> s[j] != x
  {
    if s == [] then 0 else if s[0] == x then 0 else 1 + IndexOf(s[1..], x)
  }

  /** The key of `p`, as the matching `key=` lambda of tournament.py computes it. */
  function KeyOf(p: Player, kind: KeyKind): SortKey
    reads p
  {
    match kind
    case ByRecord => SortKey([-p.score, -(p.wins as int)], p.name)
    case ByTieBreaks => SortKey([-p.score, -p.buchholz, -p.sonneborn], p.name)
    case ByElimination(elim) =>
      if p.name !in elim then SortKey([0, -p.score], p.name)
      else SortKey([|elim| - IndexOf(elim, p.name), -p.score], p.name)
  }

  /** Every player beside its key. */
  function Keyed(ps: seq<Player>, kind: KeyKind): (r: seq<(SortKey, Player)>)
    reads ps
    ensures |r| == |ps| && forall i :: 0 <= i < |ps| ==> r[i] == (KeyOf(ps[i], kind), ps[i])
    ensures Values(r) == ps
  {
    if ps == [] then [] else [(KeyOf(ps[0], kind), ps[0])] + Keyed(ps[1..], kind)
  }

  /** `players.sort(key=...)` on a copy of the list: the players ranked, with their keys. */
  function Ranked(ps: seq<Player>, kind: KeyKind): (r: seq<(SortKey, Player)>)
    reads ps
    ensures |r| == |ps|
  {
    SortByKey(Keyed(ps, kind))
  }

  /** The ranking is the roster rearranged, in key order. */
  lemma RankedPermutes(ps: seq<Player>, kind: KeyKind)
    ensures multiset(Values(Ranked(ps, kind))) == multiset(ps)
    ensures SortedByKey(Ranked(ps, kind))
    ensures forall i :: 0 <= i < |ps| ==> Ranked(ps, kind)[i].0 == KeyOf(Ranked(ps, kind)[i].1, kind)
  {
    var k := Keyed(ps, kind);
    SortByKeyValues(k);
    SortByKeySorted(k);
    SortByKeyMultiset(k);
    var r := Ranked(ps, kind);
    forall i | 0 <= i < |ps| ensures r[i].0 == KeyOf(r[i].1, kind) {
      assert r[i] in multiset(k);
      var j :| 0 <= j < |k| && k[j] == r[i];
    }
  }
}
