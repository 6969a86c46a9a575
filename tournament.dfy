/**
 * The `Tournament` controller of tournament.py: it generates the rounds of
 * a Swiss, round-robin or knockout event, files game results, advances the
 * rounds, keeps the Buchholz and Sonneborn-Berger tie-breaks and ranks the
 * players. The three random draws of the source are oracles: `coin(k)` is
 * `random.random() < 0.5` for the colours of the `k`-th pair of a round,
 * `random.shuffle` of the knockout winners is any rearrangement of them,
 * and `random.choice` between the two sides of a drawn knockout game is the
 * flag `whiteAdvances`.
 */
module Tournaments {
  import opened Common
  import opened Pairing
  import opened Players
  import opened ChessBoard
  import Swiss
  import RoundRobin

  /** The format names the controller dispatches on. */
  datatype Format = SwissFormat | RoundRobinFormat | KnockoutFormat | OtherFormat

  /** `FORMAT_SWISS`, `FORMAT_ROUNDROBIN`, `FORMAT_KNOCKOUT`; any other text is no known format. */
  function FormatOf(fmt: string): Format {
    if fmt == "Swiss" then SwissFormat
    else if fmt == "Round Robin" then RoundRobinFormat
    else if fmt == "Knockout" then KnockoutFormat
    else OtherFormat
  }

  // ---------------------------------------------------------------- games of a round

  /** `gs` are the new pending games of round `round`, one per pair, White first. */
  predicate GamesFor(gs: seq<Game>, pairs: seq<(Player, Player)>, round: int)
    reads gs
  {
    && |gs| == |pairs|
    && forall i :: 0 <= i < |gs| ==>
         && gs[i].white == pairs[i].0 && gs[i].black == pairs[i].1 && gs[i].roundNum == round
         && gs[i].status == Pending && gs[i].result.None?
  }

  /** The games of `gs` whose status is pending (`get_pending_games`). */
  function PendingGames(gs: seq<Game>): (r: seq<Game>)
    reads gs
    ensures forall i :: 0 <= i < |r| ==> r[i] in gs && r[i].status == Pending
    ensures forall i :: 0 <= i < |gs| && gs[i].status == Pending ==> gs[i] in r
  {
    if gs == [] then []
    else (if gs[0].status == Pending then [gs[0]] else []) + PendingGames(gs[1..])
  }

  /** The games of `gs` that are done (`get_all_completed_games` on all the games), in order. */
  function CompletedGames(gs: seq<Game>): (r: seq<Game>)
    reads gs
    ensures |r| <= |gs|
    ensures forall i :: 0 <= i < |r| ==> r[i] in gs && r[i].status == Done
    ensures forall i :: 0 <= i < |gs| && gs[i].status == Done ==> gs[i] in r
  {
    if gs == [] then []
    else (if gs[0].status == Done then [gs[0]] else []) + CompletedGames(gs[1..])
  }

  /** `next_game`: the first pending game of the round, if any. */
  function NextGame(gs: seq<Game>): (r: Option<Game>)
    reads gs
  {
    var pending := PendingGames(gs);
    if pending == [] then None else Some(pending[0])
  }

  /** `round_complete`: every game of the round is done. */
  predicate RoundComplete(gs: seq<Game>)
    reads gs
  {
    forall i :: 0 <= i < |gs| ==> gs[i].status == Done
  }

  /** `gs[i]` is pending and no game before it is. */
  predicate FirstPendingAt(gs: seq<Game>, i: int)
    reads gs
  {
    0 <= i < |gs| && gs[i].status == Pending && forall j :: 0 <= j < i ==> gs[j].status != Pending
  }

  /**
   * The next game is the earliest pending game of the round, and there is
   * none exactly when no game of the round is pending.
   */
  lemma {:induction false} NextGameFirstPending(gs: seq<Game>)
    ensures NextGame(gs).None? <==> forall i :: 0 <= i < |gs| ==> gs[i].status != Pending
    ensures NextGame(gs).Some? ==> exists i :: FirstPendingAt(gs, i) && gs[i] == NextGame(gs).value
  {
    if gs != [] {
      NextGameFirstPending(gs[1..]);
      if gs[0].status != Pending && NextGame(gs).Some? {
        var i :| FirstPendingAt(gs[1..], i) && gs[1..][i] == NextGame(gs[1..]).value;
        assert gs[i + 1] == NextGame(gs).value;
        forall j | 0 <= j < i + 1 ensures gs[j].status != Pending {
          if j > 0 { assert gs[j] == gs[1..][j - 1]; }
        }
      }
    }
  }

  /** A complete round has no next game. */
  lemma RoundCompleteNoNextGame(gs: seq<Game>)
    requires RoundComplete(gs)
    ensures NextGame(gs).None?
  {
    NextGameFirstPending(gs);
  }

  // ---------------------------------------------------------------- the first knockout round

  /** The pairs of a bracket with two real players, in bracket order. */
  function FullPairs<T>(b: seq<(Option<T>, Option<T>)>): (r: seq<(T, T)>)
    ensures |r| <= |b|
  {
    if b == [] then []
    else
      var (w, x) := b[|b| - 1];
      FullPairs(b[..|b| - 1]) + (if w.Some? && x.Some? then [(w.value, x.value)] else [])
  }

  /** The players of a bracket who face an empty seat and go through (`w or b`), in bracket order. */
  function Survivors<T>(b: seq<(Option<T>, Option<T>)>): (r: seq<T>)
    ensures |r| <= |b|
  {
    if b == [] then []
    else
      var (w, x) := b[|b| - 1];
      Survivors(b[..|b| - 1])
        + (if w.Some? && x.Some? then [] else if w.Some? then [w.value] else if x.Some? then [x.value] else [])
  }

  /**
   * In the first knockout round the top `size - n` seeds go through on a
   * bye and seed `size - n + j` meets seed `n - 1 - j`.
   */
  lemma FirstRoundSplit<T>(ps: seq<T>)
    requires ps != []
    ensures var e := BracketSize(|ps|) - |ps|; var b := Bracket(ps);
      && 0 <= e <= |ps|
      && Survivors(b) == ps[..e]
      && |FullPairs(b)| == |b| - e
      && forall j :: 0 <= j < |FullPairs(b)| ==> FullPairs(b)[j] == (ps[e + j], ps[|ps| - 1 - j])
  {
    var size := BracketSize(|ps|);
    var b := Bracket(ps);
    var e := size - |ps|;
    BracketLowerHalf(ps);
    SplitPrefix(b, e, ps, size);
    forall j | 0 <= j < |FullPairs(b)| ensures FullPairs(b)[j] == (ps[e + j], ps[|ps| - 1 - j]) {
      assert size - 1 - (e + j) == |ps| - 1 - j;
    }
  }

  /**
   * The shape of the seeded bracket: every pair seats a real player first,
   * the first `size - n` pairs are byes, and the pairs after them seat a
   * real player second, from the bottom of the roster up.
   */
  lemma BracketLowerHalf<T>(ps: seq<T>)
    requires ps != []
    ensures var size := BracketSize(|ps|); var b := Bracket(ps); var e := size - |ps|;
      && 0 <= e <= |b| <= |ps| && |b| <= size
      && (forall i :: 0 <= i < |b| ==> b[i].0 == Some(ps[i]))
      && (forall i :: 0 <= i < |b| ==> (b[i].1.None? <==> i < e))
      && forall i :: e <= i < |b| ==> b[i].1 == Some(ps[size - 1 - i])
  {
    var size := BracketSize(|ps|);
    var b := Bracket(ps);
    BracketByes(ps);
    forall i | size - |ps| <= i < |b| ensures b[i].1 == Some(ps[size - 1 - i]) {
      assert b[i] == (Seat(ps, i), Seat(ps, size - 1 - i));
    }
    if size > 1 {
      assert size / 2 < |ps|;
    }
  }

  lemma {:induction false} SplitPrefix<T>(b: seq<(Option<T>, Option<T>)>, e: nat, ps: seq<T>, size: nat)
    requires e <= |b| <= |ps| && |b| <= size
    requires forall i :: 0 <= i < |b| ==> b[i].0 == Some(ps[i])
    requires forall i :: 0 <= i < |b| ==> (b[i].1.None? <==> i < e)
    requires e < |b| ==> size - e <= |ps|
    requires forall i :: e <= i < |b| ==> b[i].1 == Some(ps[size - 1 - i])
    ensures Survivors(b) == ps[..e]
    ensures |FullPairs(b)| == |b| - e
    ensures forall j :: 0 <= j < |b| - e ==> FullPairs(b)[j] == (ps[e + j], ps[size - 1 - (e + j)])
    decreases |b|
  {
    if b != [] {
      var n := |b|;
      var front := b[..n - 1];
      assert b == front + [b[n - 1]];
      if n - 1 >= e {
        SplitPrefix(front, e, ps, size);
        FullStep(front, b[n - 1], e, ps, size);
      } else {
        SplitPrefix(front, n - 1, ps, size);
        ByeStep(front, b[n - 1], ps);
      }
    }
  }

  lemma FullStep<T>(front: seq<(Option<T>, Option<T>)>, last: (Option<T>, Option<T>), e: nat, ps: seq<T>, size: nat)
    requires e <= |front| < |ps| && size - e <= |ps| && |front| < size
    requires last == (Some(ps[|front|]), Some(ps[size - 1 - |front|]))
    requires Survivors(front) == ps[..e] && |FullPairs(front)| == |front| - e
    requires forall j :: 0 <= j < |front| - e ==> FullPairs(front)[j] == (ps[e + j], ps[size - 1 - (e + j)])
    ensures Survivors(front + [last]) == ps[..e] && |FullPairs(front + [last])| == |front| + 1 - e
    ensures forall j :: 0 <= j < |front| + 1 - e ==> FullPairs(front + [last])[j] == (ps[e + j], ps[size - 1 - (e + j)])
  {
    var b := front + [last];
    assert b[..|b| - 1] == front && b[|b| - 1] == last;
    var fp := FullPairs(front);
    var pr := (ps[|front|], ps[size - 1 - |front|]);
    assert FullPairs(b) == fp + [pr];
    assert Survivors(b) == Survivors(front);
    forall j | 0 <= j < |front| + 1 - e ensures FullPairs(b)[j] == (ps[e + j], ps[size - 1 - (e + j)]) {
      if j < |front| - e {
        assert FullPairs(b)[j] == fp[j];
      }
    }
  }

  lemma ByeStep<T>(front: seq<(Option<T>, Option<T>)>, last: (Option<T>, Option<T>), ps: seq<T>)
    requires |front| < |ps| && last.0 == Some(ps[|front|]) && last.1.None?
    requires Survivors(front) == ps[..|front|] && |FullPairs(front)| == 0
    ensures Survivors(front + [last]) == ps[..|front| + 1] && |FullPairs(front + [last])| == 0
  {
    assert (front + [last])[..|front|] == front;
    assert ps[..|front|] + [ps[|front|]] == ps[..|front| + 1];
  }

  // ---------------------------------------------------------------- tie-breaks

  /** `{p.name: p.score for p in player_list}`: a later player of the same name overwrites an earlier one. */
  function ScoreMap(ps: seq<Player>): (m: map<string, int>)
    reads ps
  {
    if ps == [] then map[]
    else ScoreMap(ps[..|ps| - 1])[ps[|ps| - 1].name := ps[|ps| - 1].score]
  }

  /** `score_map.get(name, 0)`. */
  function ScoreOf(m: map<string, int>, name: string): int {
    if name in m then m[name] else 0
  }

  /**
   * The score map knows exactly the roster's names, and holds for each name
   * the score of the last player of the roster who bears it.
   */
  lemma {:induction false} ScoreMapLast(ps: seq<Player>, i: nat)
    requires i < |ps| && forall j :: i < j < |ps| ==> ps[j].name != ps[i].name
    ensures ps[i].name in ScoreMap(ps) && ScoreMap(ps)[ps[i].name] == ps[i].score
  {
    if i < |ps| - 1 {
      ScoreMapLast(ps[..|ps| - 1], i);
    }
  }

  lemma {:induction false} ScoreMapKeys(ps: seq<Player>, name: string)
    ensures name in ScoreMap(ps) <==> exists i :: 0 <= i < |ps| && ps[i].name == name
  {
    if ps != [] {
      var front := ps[..|ps| - 1];
      ScoreMapKeys(front, name);
      if exists i :: 0 <= i < |front| && front[i].name == name {
        var i :| 0 <= i < |front| && front[i].name == name;
        assert ps[i].name == name;
      }
      if exists i :: 0 <= i < |ps| && ps[i].name == name {
        var i :| 0 <= i < |ps| && ps[i].name == name;
        if i < |front| {
          assert front[i].name == name;
        }
      }
    }
  }

  /** The Buchholz sum: the scores of the opponents met, byes left out, unknown names counting 0. */
  function Buchholz(opponents: seq<string>, m: map<string, int>): int {
    if opponents == [] then 0
    else
      var last := opponents[|opponents| - 1];
      Buchholz(opponents[..|opponents| - 1], m) + (if last != ByeName then ScoreOf(m, last) else 0)
  }

  /** A bye adds nothing to the Buchholz sum, wherever it falls. */
  lemma {:induction false} BuchholzSkipsByes(a: seq<string>, b: seq<string>, m: map<string, int>)
    ensures Buchholz(a + [ByeName] + b, m) == Buchholz(a + b, m)
  {
    if b == [] {
      assert (a + [ByeName] + b)[..|a|] == a && a + b == a;
    } else {
      var b' := b[..|b| - 1];
      BuchholzSkipsByes(a, b', m);
      assert (a + [ByeName] + b)[..|a + [ByeName] + b| - 1] == a + [ByeName] + b';
      assert (a + b)[..|a + b| - 1] == a + b';
    }
  }

  /** With every score at least zero, the Buchholz sum is at least zero and grows with every game. */
  lemma {:induction false} BuchholzMonotone(a: seq<string>, b: seq<string>, m: map<string, int>)
    requires forall k :: k in m ==> m[k] >= 0
    ensures 0 <= Buchholz(a, m) <= Buchholz(a + b, m)
  {
    if b == [] {
      assert a + b == a;
      if a != [] {
        BuchholzMonotone(a[..|a| - 1], [], m);
      }
    } else {
      BuchholzMonotone(a, b[..|b| - 1], m);
      assert (a + b)[..|a + b| - 1] == a + b[..|b| - 1];
    }
  }

  /**
   * What one finished game adds to `p`'s Sonneborn-Berger sum: `p`'s score
   * in it times the opponent's current score, in quarter-points.
   */
  function GameSonneborn(p: Player, g: Game, m: map<string, int>): int
    reads g
  {
    if g.status != Done then 0
    else if g.white == p && WhiteScore(g.result).Some? then WhiteScore(g.result).value * ScoreOf(m, g.black.name)
    else if g.black == p && BlackScore(g.result).Some? then BlackScore(g.result).value * ScoreOf(m, g.white.name)
    else 0
  }

  /** The Sonneborn-Berger sum of `p` over the games. */
  function Sonneborn(p: Player, games: seq<Game>, m: map<string, int>): int
    reads games
  {
    if games == [] then 0
    else Sonneborn(p, games[..|games| - 1], m) + GameSonneborn(p, games[|games| - 1], m)
  }

  /**
   * Only `p`'s own finished games count: a player who has played none of
   * the games has a sum of 0, and with scores at least zero the sum is at
   * least zero.
   */
  lemma {:induction false} SonnebornOwnGames(p: Player, games: seq<Game>, m: map<string, int>)
    requires forall i :: 0 <= i < |games| ==> games[i].white != p && games[i].black != p
    ensures Sonneborn(p, games, m) == 0
  {
    if games != [] {
      SonnebornOwnGames(p, games[..|games| - 1], m);
    }
  }

  lemma {:induction false} SonnebornNonNegative(p: Player, games: seq<Game>, m: map<string, int>)
    requires forall k :: k in m ==> m[k] >= 0
    ensures Sonneborn(p, games, m) >= 0
  {
    if games != [] {
      SonnebornNonNegative(p, games[..|games| - 1], m);
      var g := games[|games| - 1];
      ScoresShareOnePoint(g.result);
    }
  }

  // ---------------------------------------------------------------- standings

  function Names(ps: seq<Player>): (r: seq<string>)
    ensures |r| == |ps| && forall i :: 0 <= i < |ps| ==> r[i] == ps[i].name
  {
    seq(|ps|, i requires 0 <= i < |ps| => ps[i].name)
  }

  /** The ranking key of each format; the knockout key needs the eliminated players in order. */
  function StandingKind(format: Format, eliminated: seq<Player>): KeyKind {
    match format
    case SwissFormat => ByTieBreaks
    case KnockoutFormat => ByElimination(Names(eliminated))
    case _ => ByRecord
  }

  /** `get_standings`: the roster sorted by the format's key; an unknown format leaves it unsorted. */
  function Standings(format: Format, players: seq<Player>, eliminated: seq<Player>): (r: seq<Player>)
    reads players
    ensures |r| == |players|
  {
    if format == OtherFormat then players
    else Values(Ranked(players, StandingKind(format, eliminated)))
  }

  /**
   * The standings rank every player once; for a known format no player
   * comes after one with a larger key, so the first of them has a key no
   * player beats.
   */
  lemma StandingsRank(format: Format, players: seq<Player>, eliminated: seq<Player>)
    ensures multiset(Standings(format, players, eliminated)) == multiset(players)
    ensures format != OtherFormat ==>
      var r := Standings(format, players, eliminated); var kind := StandingKind(format, eliminated);
      forall i, j :: 0 <= i < j < |r| ==> !KeyLess(KeyOf(r[j], kind), KeyOf(r[i], kind))
  {
    if format != OtherFormat {
      var kind := StandingKind(format, eliminated);
      RankedPermutes(players, kind);
    }
  }

  /** The standings depend on the players alone. */
  twostate lemma StandingsKept(players: seq<Player>)
    requires forall i :: 0 <= i < |players| ==> unchanged(players[i])
    ensures forall format, eliminated | old(allocated(eliminated)) ::
      Standings(format, players, eliminated) == old(Standings(format, players, eliminated))
  {
  }

  /** The Swiss plan depends on the players' records alone, not on their tie-break sums. */
  twostate lemma SwissPlanKept(players: seq<Player>)
    requires forall i :: 0 <= i < |players| ==> RecordKept(players[i])
    ensures old(Swiss.Entries(players)) == Swiss.Entries(players)
  {
    forall i | 0 <= i < |players|
      ensures old(Swiss.Entries(players))[i] == Swiss.Entries(players)[i]
    {
      SwissEntryKept(players[i]);
    }
  }

  /** One player's entry in the Swiss ranking depends on its record alone. */
  twostate lemma SwissEntryKept(p: Player)
    requires RecordKept(p)
    ensures old(KeyOf(p, ByRecord)) == KeyOf(p, ByRecord) && old(Swiss.CardOf(p)) == Swiss.CardOf(p)
  {
  }

  lemma StandingsTop(format: Format, players: seq<Player>, eliminated: seq<Player>, p: Player)
    requires format != OtherFormat && p in players
    ensures var r := Standings(format, players, eliminated); var kind := StandingKind(format, eliminated);
      r != [] && !KeyLess(KeyOf(p, kind), KeyOf(r[0], kind))
  {
    var r := Standings(format, players, eliminated);
    var kind := StandingKind(format, eliminated);
    StandingsRank(format, players, eliminated);
    assert p in multiset(r);
    var j :| 0 <= j < |r| && r[j] == p;
    if j > 0 {
      assert !KeyLess(KeyOf(r[j], kind), KeyOf(r[0], kind));
    } else {
      KeyLessOrder(KeyOf(p, kind), KeyOf(p, kind), KeyOf(p, kind));
    }
  }

  // ---------------------------------------------------------------- the controller

  /** How the knockout decides one game: (the player who goes through, the one eliminated). */
  function KnockoutAdvance(white: Player, black: Player, ws: int, bs: int, whiteAdvances: bool): (Player, Player) {
    if ws > bs then (white, black)
    else if bs > ws then (black, white)
    else if whiteAdvances then (white, black)
    else (black, white)
  }

  /**
   * The winner of a decided knockout game goes through and the loser is
   * out; a draw is settled by the draw, and either way the two sides are
   * the two players of the game.
   */
  lemma KnockoutAdvanceWinner(white: Player, black: Player, result: Option<string>, whiteAdvances: bool)
    requires WhiteScore(result).Some?
    ensures var (adv, out) := KnockoutAdvance(white, black, WhiteScore(result).value, BlackScore(result).value, whiteAdvances);
      && (result == Some(WhiteWins) ==> adv == white && out == black)
      && (result == Some(BlackWins) ==> adv == black && out == white)
      && (result == Some(Drawn) ==> (adv, out) == (if whiteAdvances then (white, black) else (black, white)))
      && multiset{adv, out} == multiset{white, black}
  {
    ScoresShareOnePoint(result);
  }

  /** The record of `p` (everything but the tie-break sums) is as it was. */
  twostate predicate RecordKept(p: Player)
    reads p
  {
    && p.score == old(p.score) && p.wins == old(p.wins) && p.draws == old(p.draws) && p.losses == old(p.losses)
    && p.colorHistory == old(p.colorHistory) && p.opponents == old(p.opponents) && p.seed == old(p.seed)
  }

  /** `p`'s tie-break sums are as they were. */
  twostate predicate TieBreaksKept(p: Player)
    reads p
  {
    p.buchholz == old(p.buchholz) && p.sonneborn == old(p.sonneborn)
  }

  /** A player's record as a value: everything but the tie-break sums. */
  datatype Record = Record(score: int, wins: nat, draws: nat, losses: nat,
                           colorHistory: seq<char>, opponents: seq<string>, seed: int)

  function RecordOf(p: Player): (r: Record)
    reads p
    ensures r.score == p.score && r.wins == p.wins && r.draws == p.draws && r.losses == p.losses
    ensures r.colorHistory == p.colorHistory && r.opponents == p.opponents && r.seed == p.seed
  {
    Record(p.score, p.wins, p.draws, p.losses, p.colorHistory, p.opponents, p.seed)
  }

  /** The players' records, by player. */
  function Records(ps: seq<Player>): (r: map<Player, Record>)
    reads ps
    ensures forall p :: p in ps ==> p in r && r[p] == RecordOf(p)
  {
    map p | p in ps :: RecordOf(p)
  }

  /** `Credited` against a record taken before the game. */
  predicate CreditedOn(before: Record, p: Player, result: int, opponent: string, color: char)
    reads p
  {
    && p.score == before.score + result
    && p.wins == before.wins + (if result == 2 then 1 else 0)
    && p.draws == before.draws + (if result == 1 then 1 else 0)
    && p.losses == before.losses + (if result != 2 && result != 1 then 1 else 0)
    && p.GamesPlayed() == before.wins + before.draws + before.losses + 1
    && p.colorHistory == before.colorHistory + [color]
    && p.opponents == before.opponents + [opponent]
    && p.seed == before.seed
  }

  /** A bye's credit says the same as its form on the record taken before. */
  twostate lemma ByeCreditForm(p: Player)
    ensures Credited(p, 2, ByeName, White) <==> CreditedOn(old(RecordOf(p)), p, 2, ByeName, White)
  {
  }

  /** The records of players whose records were kept are as they were. */
  twostate lemma RecordsKept(players: seq<Player>)
    requires forall p :: p in players ==> RecordKept(p)
    ensures old(Records(players)) == Records(players)
  {
  }

  class Tournament {
    const name: string
    const format: Format
    /** The format text given to the constructor, as `self.format` keeps it. */
    const formatText: string
    /** The roster in entry order; it is also the knockout's `_ko_active_players`. */
    const playerList: seq<Player>
    const rounds: int
    const doubleRr: bool
    /** `tournament_id`, the text of `id(self)` in the source, given here by the caller. */
    const tournamentId: string
    /** The round-robin schedule, made once; empty for the other formats. */
    const rrSchedule: seq<seq<(Player, Player)>>

    var currentRound: int
    var allGames: seq<Game>
    var roundGames: seq<Game>
    var playedPairs: set<set<string>>
    var byeHistory: set<string>
    var started: bool
    var finished: bool
    var winner: Option<Player>
    var koPending: seq<Player>
    var koEliminated: seq<Player>
    var koRoundGames: map<int, seq<Game>>

    /**
     * The games of the current round are the last games created, and all
     * of them belong to the current round.
     */
    predicate Valid()
      reads this`currentRound, this`roundGames, this`allGames
    {
      && currentRound >= 0
      && |roundGames| <= |allGames| && allGames[|allGames| - |roundGames|..] == roundGames
      && forall g :: g in roundGames ==> g.roundNum == currentRound
    }

    /** `Tournament(name, fmt, players, rounds, double_rr=...)`; a round robin needs at least one player. */
    constructor(name: string, fmt: string, players: seq<Player>, rounds: int, doubleRr: bool, tournamentId: string)
      requires FormatOf(fmt) == RoundRobinFormat ==> players != []
      ensures Valid()
      ensures this.name == name && format == FormatOf(fmt) && formatText == fmt && playerList == players
      ensures this.doubleRr == doubleRr && this.tournamentId == tournamentId
      ensures format == RoundRobinFormat ==>
        rrSchedule == RoundRobin.Schedule(players, doubleRr) && this.rounds == |rrSchedule|
      ensures format != RoundRobinFormat ==> rrSchedule == [] && this.rounds == rounds
      ensures currentRound == 0 && allGames == [] && roundGames == [] && playedPairs == {} && byeHistory == {}
      ensures !started && !finished && winner.None?
      ensures koPending == [] && koEliminated == [] && koRoundGames == map[]
    {
      var schedule: seq<seq<(Player, Player)>> := [];
      var r := rounds;
      if FormatOf(fmt) == RoundRobinFormat {
        schedule := RoundRobin.GenerateAllRounds(players, doubleRr);
        r := |schedule|;
      }
      this.name := name;
      format := FormatOf(fmt);
      formatText := fmt;
      playerList := players;
      this.doubleRr := doubleRr;
      this.tournamentId := tournamentId;
      rrSchedule := schedule;
      this.rounds := r;
      currentRound := 0;
      allGames, roundGames := [], [];
      playedPairs, byeHistory := {}, {};
      started, finished := false, false;
      winner := None;
      koPending, koEliminated := [], [];
      koRoundGames := map[];
      new;
      assert allGames[|allGames| - |roundGames|..] == roundGames;
    }

    /** Nothing but the two game lists changed. */
    twostate predicate OnlyGamesChanged()
      reads this
    {
      SameProgress() && koPending == old(koPending) && koRoundGames == old(koRoundGames)
    }

    /** The round number, the pairing history, the flags, the winner and the eliminated players are as they were. */
    twostate predicate SameProgress()
      reads this
    {
      && currentRound == old(currentRound) && playedPairs == old(playedPairs) && byeHistory == old(byeHistory)
      && started == old(started) && finished == old(finished) && winner == old(winner)
      && koEliminated == old(koEliminated)
    }

    /** `TournamentGame(current_round, w, b)`, appended to `round_games` and `all_games`. */
    method AddGame(w: Player, b: Player) returns (g: Game)
      requires Valid()
      modifies this
      ensures Valid() && OnlyGamesChanged()
      ensures fresh(g) && g.white == w && g.black == b && g.roundNum == currentRound
      ensures g.status == Pending && g.result.None?
      ensures roundGames == old(roundGames) + [g] && allGames == old(allGames) + [g]
    {
      g := new Game(currentRound, w, b);
      roundGames := roundGames + [g];
      allGames := allGames + [g];
    }

    /** One new game per pair, in order, for a round that has none yet. */
    method AddGames(pairs: seq<(Player, Player)>)
      requires Valid() && roundGames == []
      modifies this
      ensures Valid() && OnlyGamesChanged()
      ensures GamesFor(roundGames, pairs, currentRound) && allGames == old(allGames) + roundGames
      ensures forall i :: 0 <= i < |roundGames| ==> fresh(roundGames[i])
    {
      var i := 0;
      while i < |pairs|
        invariant i <= |pairs| && Valid() && OnlyGamesChanged()
        invariant GamesFor(roundGames, pairs[..i], currentRound) && allGames == old(allGames) + roundGames
        invariant forall j :: 0 <= j < |roundGames| ==> fresh(roundGames[j])
      {
        var g := AddGame(pairs[i].0, pairs[i].1);
        assert pairs[..i + 1] == pairs[..i] + [pairs[i]];
        i := i + 1;
      }
    }
  
    /** One more round, whose games are new and appended to all the games; the pairing history is kept. */
    twostate predicate Advanced()
      reads this
    {
      && currentRound == old(currentRound) + 1
      && allGames == old(allGames) + roundGames && (forall i :: 0 <= i < |roundGames| ==> fresh(roundGames[i]))
      && playedPairs == old(playedPairs) && started == old(started) && koEliminated == old(koEliminated)
    }

    /** The pairing history, the start flag and the eliminated players are as they were. */
    twostate predicate HistoryKept()
      reads this`playedPairs, this`started, this`koEliminated
    {
      playedPairs == old(playedPairs) && started == old(started) && koEliminated == old(koEliminated)
    }

    /** The byes given, the knockout's waiting list and its round record are as they were. */
    twostate predicate PairingsKept()
      reads this`byeHistory, this`koPending, this`koRoundGames
    {
      byeHistory == old(byeHistory) && koPending == old(koPending) && koRoundGames == old(koRoundGames)
    }

    /** The knockout's waiting list and round record, the end flag and the winner are as they were. */
    twostate predicate KnockoutKept()
      reads this`koPending, this`koRoundGames, this`finished, this`winner
    {
      koPending == old(koPending) && koRoundGames == old(koRoundGames) && finished == old(finished) && winner == old(winner)
    }

    /** No bye was given and no player changed. */
    twostate predicate PlayersKept()
      reads this`byeHistory, playerList
    {
      byeHistory == old(byeHistory) && forall p :: p in playerList ==> unchanged(p)
    }

    /**
     * The Swiss round: the games of the plan made on the standings before
     * the round, the bye (a player of the roster) credited with a win, and
     * every other player as they were.
     */
    twostate predicate SwissPaired(coin: nat -> bool)
      reads this`roundGames, this`currentRound, this`byeHistory, playerList, roundGames
    {
      var (pairs, bye) := old(Swiss.SwissPlan(playerList, playedPairs, coin));
      && SwissPlanned(coin)
      && (bye.Some? ==> Recorded(bye.value, 2, ByeName, White))
      && forall p :: p in playerList && Some(p) != bye ==> unchanged(p)
    }

    /**
     * The Swiss round as far as the records go: the games of the plan, the
     * bye credited with a win and entered in `bye_history`, and every other
     * player's record as it was.
     */
    twostate predicate SwissPlanned(coin: nat -> bool)
      reads this`roundGames, this`currentRound, this`byeHistory, playerList, roundGames
    {
      var (pairs, bye) := old(Swiss.SwissPlan(playerList, playedPairs, coin));
      && GamesFor(roundGames, pairs, currentRound)
      && (bye.Some? ==> bye.value in playerList && Credited(bye.value, 2, ByeName, White)
                        && byeHistory == old(byeHistory) + {bye.value.name})
      && (bye.None? ==> byeHistory == old(byeHistory))
      && forall p :: p in playerList && Some(p) != bye ==> RecordKept(p)
    }

    /**
     * `SwissPlanned` on values: `plan` is the plan, `before` the players'
     * records and `byes` the bye list, all as they were before the round.
     */
    predicate SwissPlannedOn(plan: (seq<(Player, Player)>, Option<Player>), before: map<Player, Record>, byes: set<string>)
      reads this`roundGames, this`currentRound, this`byeHistory, playerList, roundGames
    {
      var (pairs, bye) := plan;
      && (forall p :: p in playerList ==> p in before)
      && GamesFor(roundGames, pairs, currentRound)
      && (bye.Some? ==> bye.value in playerList && CreditedOn(before[bye.value], bye.value, 2, ByeName, White)
                        && byeHistory == byes + {bye.value.name})
      && (bye.None? ==> byeHistory == byes)
      && forall p :: p in playerList && Some(p) != bye ==> RecordOf(p) == before[p]
    }

    /** `SwissPlanned` gives its value form on the plan, records and byes before the round... */
    twostate lemma SwissPlannedToValues(coin: nat -> bool)
      requires SwissPlanned(coin)
      ensures SwissPlannedOn(old(Swiss.SwissPlan(playerList, playedPairs, coin)), old(Records(playerList)), old(byeHistory))
    {
      forall p | p in playerList {
        ByeCreditForm(p);
      }
    }

    /** ... and the value form on what was there before the round gives `SwissPlanned`. */
    twostate lemma SwissPlannedFromValues(coin: nat -> bool)
      requires SwissPlannedOn(old(Swiss.SwissPlan(playerList, playedPairs, coin)), old(Records(playerList)), old(byeHistory))
      ensures SwissPlanned(coin)
    {
      forall p | p in playerList {
        ByeCreditForm(p);
      }
    }

    /** The round robin's round: the scheduled round with index `current_round - 1`, or none after the last. */
    twostate predicate RoundRobinPaired()
      reads this`roundGames, this`currentRound, roundGames
    {
      GamesFor(roundGames, if 0 <= old(currentRound) < |rrSchedule| then rrSchedule[old(currentRound)] else [], currentRound)
    }

    /** The first knockout round: the games of the seeded bracket; the players facing an empty seat wait. */
    twostate predicate KnockoutOpened()
      reads this`roundGames, this`currentRound, this`koPending, this`koRoundGames, this`finished, this`winner, roundGames
    {
      && GamesFor(roundGames, FullPairs(Bracket(playerList)), currentRound)
      && koPending == old(koPending) + Survivors(Bracket(playerList))
      && koRoundGames == old(koRoundGames)[1 := roundGames]
      && finished == old(finished) && winner == old(winner)
    }

    /**
     * A later knockout round: with one player waiting or none the
     * tournament ends with that player (or the top of the standings) as the
     * winner; otherwise the games are the new round's (which games,
     * `KnockoutShuffled` says).
     */
    twostate predicate KnockoutPaired()
      reads this`roundGames, this`currentRound, this`koPending, this`koRoundGames, this`finished, this`winner, this`koEliminated
      reads roundGames, playerList
    {
      && koPending == []
      && (|old(koPending)| <= 1 ==>
            && roundGames == [] && finished && koRoundGames == old(koRoundGames)
            && winner == (if |old(koPending)| == 1 then Some(old(koPending)[0])
                          else if playerList != [] then Some(Standings(format, playerList, koEliminated)[0]) else None))
      && (|old(koPending)| > 1 ==>
            && finished == old(finished) && winner == old(winner)
            && koRoundGames == old(koRoundGames)[currentRound := roundGames])
    }

    /** The games of this round pair `shuffled`, an order of the players who were waiting. */
    predicate KnockoutShuffled(shuffled: seq<Player>, waiting: seq<Player>, coin: nat -> bool)
      reads this`roundGames, this`currentRound, roundGames
    {
      multiset(shuffled) == multiset(waiting) && GamesFor(roundGames, KnockoutPairs(shuffled, coin), currentRound)
    }

    /** The Swiss branch of `_generate_round`: pair, create the games, credit the bye with a win. */
    method SwissRound(coin: nat -> bool)
      requires Valid()
      modifies this, playerList
      ensures Valid() && currentRound == old(currentRound) + 1
      ensures var (pairs, bye) := old(Swiss.SwissPlan(playerList, playedPairs, coin));
        && GamesFor(roundGames, pairs, currentRound)
        && (bye.Some? ==> bye.value in playerList && Recorded(bye.value, 2, ByeName, White)
                          && byeHistory == old(byeHistory) + {bye.value.name})
        && (bye.None? ==> byeHistory == old(byeHistory))
        && forall p :: p in playerList && Some(p) != bye ==> unchanged(p)
      ensures forall p :: p in playerList ==> TieBreaksKept(p)
      ensures allGames == old(allGames) + roundGames && forall i :: 0 <= i < |roundGames| ==> fresh(roundGames[i])
      ensures playedPairs == old(playedPairs) && started == old(started) && koEliminated == old(koEliminated)
      ensures KnockoutKept()
    {
      // The pairing does not depend on the round number, so it is made
      // before the number goes up.
      var pairs, bye := Swiss.Pair(playerList, currentRound + 1, playedPairs, coin);
      Swiss.SwissByeOnRoster(playerList, playedPairs, coin);
      PlaySwissRound(pairs, bye);
    }

    /** The rest of the Swiss branch, given the pairs and the bye of the plan. */
    method PlaySwissRound(pairs: seq<(Player, Player)>, bye: Option<Player>)
      requires Valid() && (bye.Some? ==> bye.value in playerList)
      modifies this, playerList
      ensures Valid() && currentRound == old(currentRound) + 1
      ensures GamesFor(roundGames, pairs, currentRound)
      ensures bye.Some? ==> Recorded(bye.value, 2, ByeName, White) && byeHistory == old(byeHistory) + {bye.value.name}
      ensures bye.None? ==> byeHistory == old(byeHistory)
      ensures forall p :: p in playerList && Some(p) != bye ==> unchanged(p)
      ensures forall p :: p in playerList ==> TieBreaksKept(p)
      ensures allGames == old(allGames) + roundGames && forall i :: 0 <= i < |roundGames| ==> fresh(roundGames[i])
      ensures playedPairs == old(playedPairs) && started == old(started) && koEliminated == old(koEliminated)
      ensures KnockoutKept()
    {
      SeatBye(bye);
      currentRound := currentRound + 1;
      roundGames := [];
      AddGames(pairs);
    }

    /** `bye.record(1.0, 'BYE', 'w')` and the bye history, when there is a bye. */
    method SeatBye(bye: Option<Player>)
      requires bye.Some? ==> bye.value in playerList
      modifies this, playerList
      ensures bye.Some? ==> Recorded(bye.value, 2, ByeName, White) && byeHistory == old(byeHistory) + {bye.value.name}
      ensures bye.None? ==> byeHistory == old(byeHistory)
      ensures forall p :: p in playerList && Some(p) != bye ==> unchanged(p)
      ensures forall p :: p in playerList ==> TieBreaksKept(p)
      ensures currentRound == old(currentRound) && allGames == old(allGames) && roundGames == old(roundGames)
      ensures playedPairs == old(playedPairs) && started == old(started) && koEliminated == old(koEliminated)
      ensures koPending == old(koPending) && koRoundGames == old(koRoundGames) && finished == old(finished) && winner == old(winner)
    {
      if bye.Some? {
        bye.value.Record(2, ByeName, White);
        byeHistory := byeHistory + {bye.value.name};
      }
    }

    /** The round-robin branch: the scheduled round with index `current_round - 1`, if there is one. */
    method RoundRobinRound()
      requires Valid()
      modifies this
      ensures Valid() && Advanced() && RoundRobinPaired() && KnockoutKept() && byeHistory == old(byeHistory)
    {
      currentRound := currentRound + 1;
      roundGames := [];
      var idx := currentRound - 1;
      if idx < |rrSchedule| {
        AddGames(rrSchedule[idx]);
      } else {
        AddGames([]);
      }
    }

    /**
     * The first knockout round: the seeded bracket, a game for every pair of
     * two players and a place in the next round for every player facing an
     * empty seat.
     */
    method KnockoutFirstRound()
      requires Valid() && currentRound == 0
      modifies this
      ensures Valid() && Advanced() && KnockoutOpened() && byeHistory == old(byeHistory)
    {
      currentRound := 1;
      roundGames := [];
      var bracket := SeedBracket(playerList);
      AddGames(FullPairs(bracket));
      koPending := koPending + Survivors(bracket);
      koRoundGames := koRoundGames[currentRound := roundGames];
    }

    /**
     * A later knockout round: the winners waiting are taken; one or none
     * left ends the tournament, otherwise they are shuffled and re-paired.
     */
    method KnockoutNextRound(coin: nat -> bool)
      requires Valid() && currentRound > 0
      modifies this
      ensures Valid() && Advanced() && KnockoutPaired() && byeHistory == old(byeHistory)
      ensures |old(koPending)| > 1 ==> exists shuffled :: KnockoutShuffled(shuffled, old(koPending), coin)
    {
      currentRound := currentRound + 1;
      roundGames := [];
      var prev := koPending;
      koPending := [];
      if |prev| <= 1 {
        winner := if prev == [] then None else Some(prev[0]);
        Finish();
        return;
      }
      PairWaiting(prev, coin);
    }

    /** The players who were waiting, in some order, paired into the games of this round. */
    method PairWaiting(prev: seq<Player>, coin: nat -> bool)
      requires Valid() && roundGames == []
      modifies this
      ensures Valid() && SameProgress() && koPending == old(koPending)
      ensures allGames == old(allGames) + roundGames && forall i :: 0 <= i < |roundGames| ==> fresh(roundGames[i])
      ensures koRoundGames == old(koRoundGames)[currentRound := roundGames]
      ensures exists shuffled :: KnockoutShuffled(shuffled, prev, coin)
    {
      assert multiset(prev) == multiset(prev);
      var shuffled :| multiset(shuffled) == multiset(prev);
      var pairs := NextRound(shuffled, coin);
      AddGames(pairs);
      koRoundGames := koRoundGames[currentRound := roundGames];
      assert KnockoutShuffled(shuffled, prev, coin);
    }

    /** `_finish`: the tournament is over; without a winner yet, the top of the standings wins. */
    method Finish()
      requires Valid()
      modifies this`finished, this`winner
      ensures Valid() && finished
      ensures winner == (if old(winner).None? && playerList != [] then Some(Standings(format, playerList, koEliminated)[0])
                         else old(winner))
      ensures currentRound == old(currentRound) && allGames == old(allGames) && roundGames == old(roundGames)
      ensures HistoryKept() && PairingsKept()
    {
      var standings := Standings(format, playerList, koEliminated);
      finished := true;
      if standings != [] && winner.None? {
        winner := Some(standings[0]);
      }
    }

    /**
     * The games and the state a new round leaves, by format: the Swiss plan
     * with its bye, the scheduled round, the seeded bracket, or (later in a
     * knockout) the end of the event or the pairing of the survivors, whose
     * order `KnockoutShuffled` states beside it.
     */
    twostate predicate RoundMade(coin: nat -> bool)
      reads this`roundGames, this`currentRound, this`byeHistory, this`koPending, this`koRoundGames
      reads this`finished, this`winner, this`koEliminated, playerList, roundGames
    {
      match format
      case SwissFormat => SwissPaired(coin) && KnockoutKept()
      case RoundRobinFormat => RoundRobinPaired() && KnockoutKept() && PlayersKept()
      case KnockoutFormat =>
        && PlayersKept()
        && (old(currentRound) == 0 ==> KnockoutOpened())
        && (old(currentRound) > 0 ==> KnockoutPaired())
      case OtherFormat => roundGames == [] && KnockoutKept() && PlayersKept()
    }

    /**
     * `_generate_round`: the next round number and its games, by format.
     * A knockout with one winner or none left ends instead.
     */
    method GenerateRound(coin: nat -> bool)
      requires Valid()
      modifies this, playerList
      ensures Valid() && Advanced()
      ensures forall p :: p in playerList ==> TieBreaksKept(p)
      ensures RoundMade(coin)
      ensures format == KnockoutFormat && old(currentRound) > 0 && |old(koPending)| > 1 ==>
        exists shuffled :: KnockoutShuffled(shuffled, old(koPending), coin)
    {
      match format
      case SwissFormat =>
        SwissRound(coin);
      case RoundRobinFormat =>
        RoundRobinRound();
      case KnockoutFormat =>
        KnockoutRound(coin);
      case OtherFormat =>
        currentRound := currentRound + 1;
        roundGames := [];
    }

    /** The knockout branch of `_generate_round`: the opening bracket, or the next round of the survivors. */
    method KnockoutRound(coin: nat -> bool)
      requires Valid() && format == KnockoutFormat
      modifies this
      ensures Valid() && Advanced() && PlayersKept()
      ensures old(currentRound) == 0 ==> KnockoutOpened()
      ensures old(currentRound) > 0 ==> KnockoutPaired()
      ensures old(currentRound) > 0 && |old(koPending)| > 1 ==>
        exists shuffled :: KnockoutShuffled(shuffled, old(koPending), coin)
    {
      if currentRound == 0 {
        KnockoutFirstRound();
      } else {
        KnockoutNextRound(coin);
      }
    }

    /**
     * The inner loop of `_update_buchholz`: `p`'s Sonneborn-Berger sum over
     * all the games, each finished game adding `p`'s score in it times the
     * opponent's score.
     */
    method SonnebornSum(p: Player, scores: map<string, int>) returns (sb: int)
      ensures sb == Sonneborn(p, allGames, scores)
    {
      sb := 0;
      var k := 0;
      while k < |allGames|
        invariant 0 <= k <= |allGames|
        invariant sb == Sonneborn(p, allGames[..k], scores)
      {
        assert allGames[..k + 1][..k] == allGames[..k];
        var g := allGames[k];
        if g.status == Done {
          if g.white == p && g.WhiteScoreNow().Some? {
            sb := sb + g.WhiteScoreNow().value * ScoreOf(scores, g.black.name);
          } else if g.black == p && g.BlackScoreNow().Some? {
            sb := sb + g.BlackScoreNow().value * ScoreOf(scores, g.white.name);
          }
        }
        k := k + 1;
      }
      assert allGames[..k] == allGames;
    }

    /**
     * `_update_buchholz`: in a Swiss tournament every player's Buchholz and
     * Sonneborn-Berger sums are recomputed from the scores as they stand;
     * nothing else about a player changes. Other formats leave the players alone.
     */
    method UpdateBuchholz()
      modifies playerList
      ensures forall p :: p in playerList ==> RecordKept(p)
      ensures format != SwissFormat ==> forall p :: p in playerList ==> unchanged(p)
      ensures format == SwissFormat ==> forall i :: 0 <= i < |playerList| ==>
        && playerList[i].buchholz == old(Buchholz(playerList[i].opponents, ScoreMap(playerList)))
        && playerList[i].sonneborn == old(Sonneborn(playerList[i], allGames, ScoreMap(playerList)))
    {
      if format != SwissFormat {
        return;
      }
      var scores := ScoreMap(playerList);
      var i := 0;
      while i < |playerList|
        invariant 0 <= i <= |playerList|
        invariant forall j :: 0 <= j < |playerList| ==> RecordKept(playerList[j])
        invariant forall j :: 0 <= j < i ==>
          && playerList[j].buchholz == Buchholz(old(playerList[j].opponents), scores)
          && playerList[j].sonneborn == old(Sonneborn(playerList[j], allGames, scores))
      {
        UpdatePlayer(playerList[i], scores);
        i := i + 1;
      }
    }

    /** One player's turn in `_update_buchholz`. */
    method UpdatePlayer(p: Player, scores: map<string, int>)
      modifies p
      ensures RecordKept(p)
      ensures p.buchholz == Buchholz(p.opponents, scores)
      ensures p.sonneborn == old(Sonneborn(p, allGames, scores))
    {
      p.buchholz := Buchholz(p.opponents, scores);
      var sb := SonnebornSum(p, scores);
      p.sonneborn := sb;
    }

    /**
     * `advance_round`: tie-breaks are brought up to date; a Swiss or
     * round-robin tournament that has played its rounds, or a knockout with
     * one winner or none left, finishes; otherwise the next round is made.
     * A tournament of no known format reports itself done and changes nothing else.
     */
    method AdvanceRound(coin: nat -> bool) returns (done: bool)
      requires Valid()
      modifies this, playerList
      ensures Valid()
      ensures done <==> match format
        case SwissFormat => old(currentRound) >= rounds
        case RoundRobinFormat => old(currentRound) >= rounds
        case KnockoutFormat => |old(koPending)| <= 1
        case OtherFormat => true
      ensures format == SwissFormat ==> forall i :: 0 <= i < |playerList| ==>
        && playerList[i].buchholz == old(Buchholz(playerList[i].opponents, ScoreMap(playerList)))
        && playerList[i].sonneborn == old(Sonneborn(playerList[i], allGames, ScoreMap(playerList)))
      ensures format != SwissFormat ==> forall p :: p in playerList ==> TieBreaksKept(p)
      ensures HistoryKept()
      ensures done ==> currentRound == old(currentRound) && allGames == old(allGames) && roundGames == old(roundGames)
      ensures done ==> finished == (old(finished) || format != OtherFormat) && PairingsKept()
      ensures done ==> forall p :: p in playerList ==> RecordKept(p)
      ensures done && format != KnockoutFormat ==>
        winner == (if old(winner).None? && format != OtherFormat && playerList != []
                   then Some(Standings(format, playerList, koEliminated)[0]) else old(winner))
      ensures done && format == KnockoutFormat ==>
        winner == (if |old(koPending)| == 1 then Some(old(koPending)[0])
                   else if playerList != [] then Some(Standings(format, playerList, koEliminated)[0]) else None)
      ensures !done ==> currentRound == old(currentRound) + 1 && allGames == old(allGames) + roundGames
      ensures !done ==> forall i :: 0 <= i < |roundGames| ==> fresh(roundGames[i])
      ensures !done && format != SwissFormat ==> RoundMade(coin)
      ensures !done && format == SwissFormat ==> SwissPlanned(coin) && KnockoutKept()
      ensures !done && format == KnockoutFormat && old(currentRound) > 0 ==>
        exists shuffled :: KnockoutShuffled(shuffled, old(koPending), coin)
    {
      if format == SwissFormat {
        done := AdvanceSwiss(coin);
      } else {
        // `_update_buchholz` returns at once for the other formats.
        done := CloseRound(coin);
      }
    }

    /**
     * `advance_round` in a Swiss event: the tie-break sums are recomputed,
     * then the event finishes after its last round or pairs the next one
     * on the records, which the recomputation left as they were.
     */
    method AdvanceSwiss(coin: nat -> bool) returns (done: bool)
      requires Valid() && format == SwissFormat
      modifies this, playerList
      ensures Valid()
      ensures done <==> old(currentRound) >= rounds
      ensures forall i :: 0 <= i < |playerList| ==>
        && playerList[i].buchholz == old(Buchholz(playerList[i].opponents, ScoreMap(playerList)))
        && playerList[i].sonneborn == old(Sonneborn(playerList[i], allGames, ScoreMap(playerList)))
      ensures done ==> currentRound == old(currentRound) && allGames == old(allGames) && roundGames == old(roundGames)
      ensures HistoryKept()
      ensures done ==> finished && PairingsKept() && forall p :: p in playerList ==> RecordKept(p)
      ensures done ==> winner == (if old(winner).None? && playerList != [] then Some(Standings(format, playerList, koEliminated)[0]) else old(winner))
      ensures !done ==> currentRound == old(currentRound) + 1 && allGames == old(allGames) + roundGames
      ensures !done ==> forall i :: 0 <= i < |roundGames| ==> fresh(roundGames[i])
      ensures !done ==> SwissPlanned(coin) && KnockoutKept()
    {
      UpdateBuchholz();
      SwissPlanKept(playerList);
      RecordsKept(playerList);
      label updated:
      done := CloseRound(coin);
      forall j | 0 <= j < |playerList|
        ensures playerList[j].buchholz == old@updated(playerList[j].buchholz)
        ensures playerList[j].sonneborn == old@updated(playerList[j].sonneborn)
      {
        assert playerList[j] in playerList;
      }
      if !done {
        // The round was planned on the records, which the recomputation left as they were.
        SwissPlannedToValues@updated(coin);
        SwissPlannedFromValues(coin);
      } else {
        forall p | p in playerList
          ensures RecordKept(p)
        {
          assert RecordKept@updated(p);
        }
      }
    }

    /** `advance_round` once the tie-breaks are up to date: finish, or make the next round. */
    method CloseRound(coin: nat -> bool) returns (done: bool)
      requires Valid()
      modifies this, playerList
      ensures Valid()
      ensures done <==> match format
        case SwissFormat => old(currentRound) >= rounds
        case RoundRobinFormat => old(currentRound) >= rounds
        case KnockoutFormat => |old(koPending)| <= 1
        case OtherFormat => true
      ensures forall p :: p in playerList ==> TieBreaksKept(p)
      ensures HistoryKept()
      ensures done ==> forall p :: p in playerList ==> unchanged(p)
      ensures done ==> currentRound == old(currentRound) && allGames == old(allGames) && roundGames == old(roundGames)
      ensures done ==> finished == (old(finished) || format != OtherFormat) && PairingsKept()
      ensures done && format != KnockoutFormat ==>
        winner == (if old(winner).None? && format != OtherFormat && playerList != []
                   then Some(Standings(format, playerList, koEliminated)[0]) else old(winner))
      ensures done && format == KnockoutFormat ==>
        winner == (if |old(koPending)| == 1 then Some(old(koPending)[0])
                   else if playerList != [] then Some(Standings(format, playerList, koEliminated)[0]) else None)
      ensures !done ==> currentRound == old(currentRound) + 1 && allGames == old(allGames) + roundGames
      ensures !done ==> forall i :: 0 <= i < |roundGames| ==> fresh(roundGames[i])
      ensures !done ==> RoundMade(coin)
      ensures !done && format == KnockoutFormat && old(currentRound) > 0 ==>
        exists shuffled :: KnockoutShuffled(shuffled, old(koPending), coin)
    {
      match format {
        case SwissFormat =>
          done := currentRound >= rounds;
        case RoundRobinFormat =>
          done := currentRound >= rounds;
        case KnockoutFormat =>
          done := |koPending| <= 1;
        case OtherFormat =>
          return true;
      }
      if done {
        Conclude();
      } else {
        MakeNextRound(coin);
      }
    }

    /**
     * The finishing branch of `advance_round`: a knockout's last player
     * waiting (or nobody) is the winner before `_finish` runs.
     */
    method Conclude()
      requires Valid() && (format == KnockoutFormat ==> |koPending| <= 1)
      modifies this
      ensures Valid() && finished && HistoryKept() && PairingsKept()
      ensures currentRound == old(currentRound) && allGames == old(allGames) && roundGames == old(roundGames)
      ensures format != KnockoutFormat ==>
        winner == (if old(winner).None? && playerList != [] then Some(Standings(format, playerList, koEliminated)[0]) else old(winner))
      ensures format == KnockoutFormat ==>
        winner == (if |old(koPending)| == 1 then Some(old(koPending)[0])
                   else if playerList != [] then Some(Standings(format, playerList, koEliminated)[0]) else None)
    {
      if format == KnockoutFormat {
        winner := if koPending == [] then None else Some(koPending[0]);
      }
      Finish();
    }

    /** `_generate_round` as `advance_round` sees it: one more round, the tie-breaks untouched. */
    method MakeNextRound(coin: nat -> bool)
      requires Valid()
      modifies this, playerList
      ensures Valid() && Advanced()
      ensures forall p :: p in playerList ==> TieBreaksKept(p)
      ensures RoundMade(coin)
      ensures format == KnockoutFormat && old(currentRound) > 0 && |old(koPending)| > 1 ==>
        exists shuffled :: KnockoutShuffled(shuffled, old(koPending), coin)
    {
      GenerateRound(coin);
    }

    /** `start`: the tournament is under way and its first round is made. */
    method Start(coin: nat -> bool)
      requires Valid()
      modifies this, playerList
      ensures Valid() && started && currentRound == old(currentRound) + 1
      ensures playedPairs == old(playedPairs) && koEliminated == old(koEliminated)
      ensures allGames == old(allGames) + roundGames && forall i :: 0 <= i < |roundGames| ==> fresh(roundGames[i])
      ensures forall p :: p in playerList ==> TieBreaksKept(p)
      ensures RoundMade(coin)
      ensures format == KnockoutFormat && old(currentRound) > 0 && |old(koPending)| > 1 ==>
        exists shuffled :: KnockoutShuffled(shuffled, old(koPending), coin)
    {
      ghost var waiting := koPending;
      GenerateRound(coin);
      ghost var shuffled: seq<Player> := [];
      if format == KnockoutFormat && old(currentRound) > 0 && |waiting| > 1 {
        shuffled :| KnockoutShuffled(shuffled, waiting, coin);
      }
      // `_generate_round` never reads the flag, so setting it once the round is made changes nothing.
      MarkStarted();
      assert format == KnockoutFormat && old(currentRound) > 0 && |waiting| > 1 ==> KnockoutShuffled(shuffled, waiting, coin);
    }

    /** `self.started = True`. */
    method MarkStarted()
      modifies this`started
      ensures started
    {
      started := true;
    }

    /**
     * `record_game_result`: the game is filed as done with its result and
     * record, the pair is marked as having met, a decided result goes on
     * both players' records, and in a knockout the winner goes through and
     * the loser is out.
     */
    method RecordGameResult(game: Game, result: string, reason: string, moveHistory: seq<HistoryEntry>, pgn: string,
                            duration: int, opening: Option<string>, evalHistory: Option<seq<int>>, whiteAdvances: bool)
      requires Valid()
      modifies this, game, game.white, game.black
      ensures Valid()
      ensures game.result == Some(result) && game.status == Done && game.reason == reason && game.pgn == pgn
      ensures game.moveCount == |moveHistory| && game.duration == duration && game.moveHistory == moveHistory
      ensures game.opening == (if opening.Some? then opening.value else "")
      ensures game.evalHistory == (if evalHistory.Some? then evalHistory.value else [])
      ensures playedPairs == old(playedPairs) + {PairKey(game.white.name, game.black.name)}
      ensures var ws, bs := WhiteScore(Some(result)), BlackScore(Some(result));
        && (ws.None? ==> unchanged(game.white, game.black))
        && (ws.Some? && game.white != game.black ==>
              Recorded(game.white, ws.value, game.black.name, White) && Recorded(game.black, bs.value, game.white.name, Black))
        && (format == KnockoutFormat && ws.Some? ==>
              var (adv, out) := KnockoutAdvance(game.white, game.black, ws.value, bs.value, whiteAdvances);
              koPending == old(koPending) + [adv] && koEliminated == old(koEliminated) + [out])
        && (format != KnockoutFormat || ws.None? ==> koPending == old(koPending) && koEliminated == old(koEliminated))
      ensures currentRound == old(currentRound) && allGames == old(allGames) && roundGames == old(roundGames)
      ensures byeHistory == old(byeHistory) && started == old(started) && finished == old(finished) && winner == old(winner)
      ensures koRoundGames == old(koRoundGames)
    {
      game.File(result, reason, moveHistory, pgn, duration, opening, evalHistory);
      playedPairs := playedPairs + {PairKey(game.white.name, game.black.name)};
      CreditSides(game);
      if format == KnockoutFormat {
        SettleKnockout(game, whiteAdvances);
      }
    }

    /** The knockout part of `record_game_result`: for a decided game, one side goes through and the other is out. */
    method SettleKnockout(game: Game, whiteAdvances: bool)
      requires Valid()
      modifies this
      ensures Valid()
      ensures var ws, bs := game.WhiteScoreNow(), game.BlackScoreNow();
        && (ws.Some? ==>
              var (adv, out) := KnockoutAdvance(game.white, game.black, ws.value, bs.value, whiteAdvances);
              koPending == old(koPending) + [adv] && koEliminated == old(koEliminated) + [out])
        && (ws.None? ==> koPending == old(koPending) && koEliminated == old(koEliminated))
      ensures currentRound == old(currentRound) && allGames == old(allGames) && roundGames == old(roundGames)
      ensures byeHistory == old(byeHistory) && started == old(started) && finished == old(finished) && winner == old(winner)
      ensures koRoundGames == old(koRoundGames) && playedPairs == old(playedPairs)
    {
      var ws, bs := game.WhiteScoreNow(), game.BlackScoreNow();
      if ws.Some? {
        var (adv, out) := KnockoutAdvance(game.white, game.black, ws.value, bs.value, whiteAdvances);
        koPending := koPending + [adv];
        koEliminated := koEliminated + [out];
      }
    }
  }

  /** The scoring part of `record_game_result`: a decided result goes on both sides' records. */
  method CreditSides(game: Game)
    modifies game.white, game.black
    ensures var ws, bs := game.WhiteScoreNow(), game.BlackScoreNow();
      && (ws.None? ==> unchanged(game.white, game.black))
      && (ws.Some? && game.white != game.black ==>
            Recorded(game.white, ws.value, game.black.name, White) && Recorded(game.black, bs.value, game.white.name, Black))
  {
    var ws, bs := game.WhiteScoreNow(), game.BlackScoreNow();
    if ws.Some? {
      game.white.Record(ws.value, game.black.name, White);
      game.black.Record(bs.value, game.white.name, Black);
    }
  }
}
