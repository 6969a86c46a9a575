/**
 * `SwissPairing.pair` of tournament.py: rank the players, set one aside for
 * a bye when their number is odd, pair the rest with the greedy pairer of
 * module Pairing, and give each pair its colours. The pairing only reads
 * each player's record, so it works on a snapshot of it (a `Card`). The
 * coin `random.random() < 0.5` that settles a colour tie is the oracle
 * `coin`, asked once per pair (by the pair's position).
 */
module Swiss {
  import opened Common
  import opened Pairing
  import opened Players

  /** What the pairing reads of a player, beside the player itself. */
  datatype Card = Card(player: Player, score: int, wins: int, colors: seq<char>, opponents: seq<string>)

  function CardOf(p: Player): (c: Card)
    reads p
    ensures c.player == p
  {
    Card(p, p.score, p.wins, p.colorHistory, p.opponents)
  }

  /** A ranked entry: the sort key `(-score, -wins, name)` and the card. */
  type Entry = (SortKey, Card)

  /** The players with their pairing keys, in roster order. */
  function Entries(ps: seq<Player>): (r: seq<Entry>)
    reads ps
    ensures |r| == |ps|
    ensures forall i :: 0 <= i < |ps| ==> r[i] == (KeyOf(ps[i], ByRecord), CardOf(ps[i]))
  {
    if ps == [] then [] else [(KeyOf(ps[0], ByRecord), CardOf(ps[0]))] + Entries(ps[1..])
  }

  // ---------------------------------------------------------------- colours

  /** Black games minus White games: how far a player is owed a White game. */
  function Imbalance(c: Card): int {
    multiset(c.colors)[Black] as int - multiset(c.colors)[White] as int
  }

  /** The player's last game was played with Black. */
  predicate LastWasBlack(c: Card) {
    c.colors != [] && c.colors[|c.colors| - 1] == Black
  }

  /**
   * `_assign_colors(p1, p2)`: (white, black). The player with more Black
   * games than White games gets White; on a tie the one whose last game was
   * with Black (`p1` asked first); failing that, the coin.
   */
  function AssignColors(c1: Card, c2: Card, coin: bool): (r: (Player, Player))
    ensures r == (c1.player, c2.player) || r == (c2.player, c1.player)
    ensures Imbalance(c1) > Imbalance(c2) ==> r == (c1.player, c2.player)
    ensures Imbalance(c2) > Imbalance(c1) ==> r == (c2.player, c1.player)
    ensures Imbalance(c1) == Imbalance(c2) && LastWasBlack(c1) ==> r == (c1.player, c2.player)
    ensures Imbalance(c1) == Imbalance(c2) && !LastWasBlack(c1) && LastWasBlack(c2) ==> r == (c2.player, c1.player)
    ensures Imbalance(c1) == Imbalance(c2) && !LastWasBlack(c1) && !LastWasBlack(c2) ==>
      r == (if coin then (c1.player, c2.player) else (c2.player, c1.player))
  {
    var b1, b2 := Imbalance(c1), Imbalance(c2);
    if b1 > b2 then (c1.player, c2.player)
    else if b2 > b1 then (c2.player, c1.player)
    else if LastWasBlack(c1) then (c1.player, c2.player)
    else if LastWasBlack(c2) then (c2.player, c1.player)
    else if coin then (c1.player, c2.player)
    else (c2.player, c1.player)
  }

  // ---------------------------------------------------------------- the bye

  /** The name the greedy pairer compares: the name inside the sort key. */
  function KeyName(e: Entry): string {
    e.0.name
  }

  /** The last of the first `n` ranked players who has not had a bye yet. */
  function LastWithoutBye(avail: seq<Entry>, n: nat): (r: Option<nat>)
    requires n <= |avail|
    ensures r.Some? ==> (r.value < n && ByeName !in avail[r.value].1.opponents
      && forall j :: r.value < j < n ==> ByeName in avail[j].1.opponents)
    ensures r.None? ==> forall j :: 0 <= j < n ==> ByeName in avail[j].1.opponents
  {
    if n == 0 then None
    else if ByeName !in avail[n - 1].1.opponents then Some(n - 1)
    else LastWithoutBye(avail, n - 1)
  }

  /** `list.remove(x)`: the first occurrence of `x` taken out. */
  function RemoveFirst<T(==)>(s: seq<T>, x: T): (r: seq<T>)
    ensures x in s ==> |r| == |s| - 1 && multiset(r) + multiset{x} == multiset(s)
  {
    if s == [] then []
    else if s[0] == x then (assert s == [s[0]] + s[1..]; s[1..])
    else (assert s == [s[0]] + s[1..]; [s[0]] + RemoveFirst(s[1..], x))
  }

  /**
   * The ranked players left to pair once the bye, if any, is set aside:
   * the last one without a bye is taken out with `list.remove`, or, when
   * all have had one, the last one is popped.
   */
  function Unbyed(avail: seq<Entry>): (r: (seq<Entry>, Option<Player>))
    ensures |r.0| % 2 == 0
    ensures r.1.Some? <==> |avail| % 2 == 1
    ensures |r.0| == |avail| - (if r.1.Some? then 1 else 0)
  {
    if |avail| % 2 == 0 then (avail, None)
    else match LastWithoutBye(avail, |avail|)
      case Some(i) => (assert avail[i] in avail; (RemoveFirst(avail, avail[i]), Some(avail[i].1.player)))
      case None => (avail[..|avail| - 1], Some(avail[|avail| - 1].1.player))
  }

  // ---------------------------------------------------------------- the pairs

  /** The first `n` pairs of consecutive players of `paired`, coloured. */
  function ColourPairs(paired: seq<Entry>, coin: nat -> bool, n: nat): (r: seq<(Player, Player)>)
    requires 2 * n <= |paired|
    ensures |r| == n
  {
    if n == 0 then []
    else ColourPairs(paired, coin, n - 1) + [AssignColors(paired[2 * n - 2].1, paired[2 * n - 1].1, coin(n - 1))]
  }

  /** The pairing of the players ranked as `avail`: the coloured pairs and the bye. */
  function Plan(avail: seq<Entry>, played: set<set<string>>, coin: nat -> bool): (r: (seq<(Player, Player)>, Option<Player>))
  {
    var (rest, bye) := Unbyed(avail);
    var paired := BacktrackPair(rest, KeyName, played);
    (ColourPairs(paired, coin, |paired| / 2), bye)
  }

  /** The players ranked for pairing: score, then wins, descending, then name. */
  function SwissRanking(players: seq<Player>): (avail: seq<Entry>)
    reads players
  {
    SortByKey(Entries(players))
  }

  /** `SwissPairing.pair(players, round_num, played_pairs)`. */
  function SwissPlan(players: seq<Player>, played: set<set<string>>, coin: nat -> bool)
    : (r: (seq<(Player, Player)>, Option<Player>))
    reads players
  {
    Plan(SwissRanking(players), played, coin)
  }

  /** The bye scan of `pair`: from the bottom of the ranking up to the first player without a bye. */
  method SetAsideBye(ranked: seq<Entry>) returns (available: seq<Entry>, bye: Option<Player>)
    ensures (available, bye) == Unbyed(ranked)
  {
    available := ranked;
    bye := None;
    if |available| % 2 == 1 {
      var j: nat := |available|;
      while j > 0
        invariant j <= |available| && available == ranked
        invariant LastWithoutBye(ranked, |ranked|) == LastWithoutBye(ranked, j)
      {
        if ByeName !in available[j - 1].1.opponents {
          bye := Some(available[j - 1].1.player);
          available := RemoveFirst(available, available[j - 1]);
          return;
        }
        j := j - 1;
      }
      bye := Some(available[|available| - 1].1.player);
      available := available[..|available| - 1];
    }
  }

  /** The last loop of `pair`: one coloured pair for every two players of the greedy pairer's result. */
  method ColourAll(paired: seq<Entry>, coin: nat -> bool) returns (pairings: seq<(Player, Player)>)
    ensures pairings == ColourPairs(paired, coin, |paired| / 2)
  {
    pairings := [];
    var i := 0;
    while i + 1 < |paired|
      invariant i % 2 == 0 && i <= |paired|
      invariant pairings == ColourPairs(paired, coin, i / 2)
    {
      var wb := AssignColors(paired[i].1, paired[i + 1].1, coin(i / 2));
      pairings := pairings + [wb];
      i := i + 2;
    }
  }

  /** `pair`: rank, set the bye aside, pair greedily, colour. */
  method Pair(players: seq<Player>, roundNum: int, played: set<set<string>>, coin: nat -> bool)
    returns (pairings: seq<(Player, Player)>, bye: Option<Player>)
    ensures (pairings, bye) == SwissPlan(players, played, coin)
  {
    var available := SwissRanking(players);
    available, bye := SetAsideBye(available);
    var paired := BacktrackPair(available, KeyName, played);
    pairings := ColourAll(paired, coin);
  }

  // ---------------------------------------------------------------- properties

  /** The players of a list of pairs, pair by pair. */
  function Flat(pairs: seq<(Player, Player)>): (r: seq<Player>)
    ensures |r| == 2 * |pairs|
  {
    if pairs == [] then [] else [pairs[0].0, pairs[0].1] + Flat(pairs[1..])
  }

  /** The players of a list of entries, in order. */
  function Seated(es: seq<Entry>): (r: seq<Player>)
    ensures |r| == |es|
  {
    if es == [] then [] else [es[0].1.player] + Seated(es[1..])
  }

  /** The bye as a multiset of at most one player. */
  function ByeSet(bye: Option<Player>): multiset<Player> {
    if bye.Some? then multiset{bye.value} else multiset{}
  }

  /** The ranking holds every player once, in key order. */
  lemma SwissRankingSorted(players: seq<Player>)
    ensures SortedByKey(SwissRanking(players))
    ensures multiset(Seated(SwissRanking(players))) == multiset(players)
  {
    var es := Entries(players);
    SortByKeySorted(es);
    SortByKeyMultiset(es);
    SeatedMultiset(SortByKey(es), es);
    EntriesSeated(players);
  }

  /**
   * The pairs and the bye share out the roster: every player is in exactly
   * one pair or is the bye, and there is a bye exactly when the roster is
   * odd. This holds whatever has been played before, so a roster in which
   * every pair has already met still gets a complete pairing.
   */
  lemma SwissPartition(players: seq<Player>, played: set<set<string>>, coin: nat -> bool)
    ensures var (pairs, bye) := SwissPlan(players, played, coin);
      && multiset(Flat(pairs)) + ByeSet(bye) == multiset(players)
      && (bye.Some? <==> |players| % 2 == 1)
      && 2 * |pairs| == |players| - (if bye.Some? then 1 else 0)
  {
    SwissRankingSorted(players);
    PlanShares(SwissRanking(players), played, coin);
  }

  /** The bye, when there is one, is a player of the roster. */
  lemma SwissByeOnRoster(players: seq<Player>, played: set<set<string>>, coin: nat -> bool)
    ensures var bye := SwissPlan(players, played, coin).1; bye.Some? ==> bye.value in players
  {
    SwissPartition(players, played, coin);
    var bye := SwissPlan(players, played, coin).1;
    if bye.Some? {
      assert bye.value in multiset(players);
    }
  }

  /** The plan for a ranking seats each ranked player once, in a pair or as the bye. */
  lemma PlanShares(avail: seq<Entry>, played: set<set<string>>, coin: nat -> bool)
    ensures var (pairs, bye) := Plan(avail, played, coin);
      && multiset(Flat(pairs)) + ByeSet(bye) == multiset(Seated(avail))
      && (bye.Some? <==> |avail| % 2 == 1)
      && 2 * |pairs| == |avail| - (if bye.Some? then 1 else 0)
  {
    var (rest, bye) := Unbyed(avail);
    var paired := BacktrackPair(rest, KeyName, played);
    var pairs := ColourPairs(paired, coin, |paired| / 2);
    assert Plan(avail, played, coin) == (pairs, bye);
    UnbyedShares(avail);
    PairedShares(rest, played, coin);
    assert |pairs| == |rest| / 2;
  }

  /** Pairing and colouring an even list seats each of its players once. */
  lemma PairedShares(rest: seq<Entry>, played: set<set<string>>, coin: nat -> bool)
    requires |rest| % 2 == 0
    ensures var paired := BacktrackPair(rest, KeyName, played);
      multiset(Flat(ColourPairs(paired, coin, |paired| / 2))) == multiset(Seated(rest))
  {
    var paired := BacktrackPair(rest, KeyName, played);
    BacktrackPairPermutes(rest, KeyName, played);
    SeatedMultiset(paired, rest);
    ColourPairsPlayers(paired, coin, |paired| / 2);
    assert paired[..2 * (|paired| / 2)] == paired;
  }

  /**
   * The bye goes to the lowest-ranked player who has not had one, and to
   * the lowest-ranked player of all when everyone has.
   */
  lemma SwissBye(players: seq<Player>, played: set<set<string>>, coin: nat -> bool)
    requires |players| % 2 == 1
    ensures var ranked := SwissRanking(players); var bye := SwissPlan(players, played, coin).1;
      && |ranked| == |players| && bye.Some?
      && ((exists i :: 0 <= i < |ranked| && ByeName !in ranked[i].1.opponents) ==>
            exists i :: 0 <= i < |ranked| && bye.value == ranked[i].1.player
              && ByeName !in ranked[i].1.opponents
              && forall j :: i < j < |ranked| ==> ByeName in ranked[j].1.opponents)
      && ((forall i :: 0 <= i < |ranked| ==> ByeName in ranked[i].1.opponents) ==>
            bye.value == ranked[|ranked| - 1].1.player)
  {
    var ranked := SwissRanking(players);
    var w := LastWithoutBye(ranked, |ranked|);
    if w.Some? {
      assert ranked[w.value].1.player == SwissPlan(players, played, coin).1.value;
    }
  }

  /** Every pair is coloured by `_assign_colors` from two consecutive players of the greedy pairer's result. */
  lemma SwissColours(players: seq<Player>, played: set<set<string>>, coin: nat -> bool, k: nat)
    requires k < |SwissPlan(players, played, coin).0|
    ensures var rest := Unbyed(SwissRanking(players)).0;
      var paired := BacktrackPair(rest, KeyName, played);
      && 2 * k + 1 < |paired|
      && SwissPlan(players, played, coin).0[k] == AssignColors(paired[2 * k].1, paired[2 * k + 1].1, coin(k))
  {
    var rest := Unbyed(SwissRanking(players)).0;
    var paired := BacktrackPair(rest, KeyName, played);
    ColourPairsAt(paired, coin, |paired| / 2, k);
  }

  // ---------------------------------------------------------------- helper facts

  lemma ColourPairsAt(paired: seq<Entry>, coin: nat -> bool, n: nat, k: nat)
    requires 2 * n <= |paired| && k < n
    ensures ColourPairs(paired, coin, n)[k] == AssignColors(paired[2 * k].1, paired[2 * k + 1].1, coin(k))
  {
    if k < n - 1 {
      ColourPairsAt(paired, coin, n - 1, k);
    }
  }

  lemma {:induction false} ColourPairsPlayers(paired: seq<Entry>, coin: nat -> bool, n: nat)
    requires 2 * n <= |paired|
    ensures multiset(Flat(ColourPairs(paired, coin, n))) == multiset(Seated(paired[..2 * n]))
  {
    if n > 0 {
      ColourPairsPlayers(paired, coin, n - 1);
      ColourPairsStep(paired, coin, n);
    }
  }

  /** One more pair seats its two players, whichever colours they get. */
  lemma ColourPairsStep(paired: seq<Entry>, coin: nat -> bool, n: nat)
    requires 0 < n && 2 * n <= |paired|
    requires multiset(Flat(ColourPairs(paired, coin, n - 1))) == multiset(Seated(paired[..2 * n - 2]))
    ensures multiset(Flat(ColourPairs(paired, coin, n))) == multiset(Seated(paired[..2 * n]))
  {
    var prev := ColourPairs(paired, coin, n - 1);
    var pr := AssignColors(paired[2 * n - 2].1, paired[2 * n - 1].1, coin(n - 1));
    FlatSnoc(prev, pr);
    SeatedSnoc(paired, n);
  }

  lemma FlatSnoc(prev: seq<(Player, Player)>, pr: (Player, Player))
    ensures multiset(Flat(prev + [pr])) == multiset(Flat(prev)) + multiset{pr.0, pr.1}
  {
    FlatConcat(prev, [pr]);
    FlatOne(pr);
  }

  lemma SeatedSnoc(paired: seq<Entry>, n: nat)
    requires 0 < n && 2 * n <= |paired|
    ensures multiset(Seated(paired[..2 * n])) ==
      multiset(Seated(paired[..2 * n - 2])) + multiset{paired[2 * n - 2].1.player, paired[2 * n - 1].1.player}
  {
    var two := paired[2 * n - 2..2 * n];
    assert paired[..2 * n] == paired[..2 * n - 2] + two;
    SeatedConcat(paired[..2 * n - 2], two);
    SeatedTwo(two);
  }

  lemma FlatOne(pr: (Player, Player))
    ensures Flat([pr]) == [pr.0, pr.1]
  {
    assert [pr][1..] == [];
  }

  lemma SeatedTwo(two: seq<Entry>)
    requires |two| == 2
    ensures Seated(two) == [two[0].1.player, two[1].1.player]
  {
    assert two[1..][1..] == [];
  }

  lemma {:induction false} FlatConcat(a: seq<(Player, Player)>, b: seq<(Player, Player)>)
    ensures Flat(a + b) == Flat(a) + Flat(b)
  {
    if a == [] {
      assert a + b == b;
    } else {
      assert (a + b)[1..] == a[1..] + b;
      FlatConcat(a[1..], b);
    }
  }

  lemma {:induction false} SeatedConcat(a: seq<Entry>, b: seq<Entry>)
    ensures Seated(a + b) == Seated(a) + Seated(b)
  {
    if a == [] {
      assert a + b == b;
    } else {
      assert (a + b)[1..] == a[1..] + b;
      SeatedConcat(a[1..], b);
    }
  }

  /** Sequences with the same entries seat the same players. */
  lemma {:induction false} SeatedMultiset(s: seq<Entry>, t: seq<Entry>)
    requires multiset(s) == multiset(t)
    ensures multiset(Seated(s)) == multiset(Seated(t))
    decreases |s|
  {
    if s == [] {
      assert |t| == |multiset(t)| == 0;
    } else {
      var x := s[0];
      assert x in multiset(s);
      var k :| 0 <= k < |t| && t[k] == x;
      var t' := t[..k] + t[k + 1..];
      TakeOut(t, k);
      TakeOut(s, 0);
      assert s[..0] + s[1..] == s[1..];
      Cancel(multiset(s[1..]), multiset(t'), x);
      SeatedMultiset(s[1..], t');
      TakeOutSeated(t, k);
      TakeOutSeated(s, 0);
    }
  }

  /** Taking out the entry at `k` takes out one copy of it. */
  lemma TakeOut(t: seq<Entry>, k: nat)
    requires k < |t|
    ensures multiset(t) == multiset(t[..k] + t[k + 1..]) + multiset{t[k]}
  {
    var a, b := t[..k], t[k + 1..];
    assert t == a + [t[k]] + b;
  }

  /** Taking out the entry at `k` takes out its player. */
  lemma TakeOutSeated(t: seq<Entry>, k: nat)
    requires k < |t|
    ensures multiset(Seated(t)) == multiset(Seated(t[..k] + t[k + 1..])) + multiset{t[k].1.player}
  {
    var a, b := t[..k], t[k + 1..];
    SeatedAround(t, k);
    SeatedConcat(a, b);
    MultisetAround(Seated(a), t[k].1.player, Seated(b));
  }

  /** The players of `t`, split around the entry at `k`. */
  lemma SeatedAround(t: seq<Entry>, k: nat)
    requires k < |t|
    ensures Seated(t) == Seated(t[..k]) + [t[k].1.player] + Seated(t[k + 1..])
  {
    var a, c := t[..k], t[k..];
    assert t == a + c;
    SeatedConcat(a, c);
    assert c[1..] == t[k + 1..];
  }

  /** One element between two sequences is one copy more than the two alone. */
  lemma MultisetAround<T>(a: seq<T>, x: T, b: seq<T>)
    ensures multiset(a + [x] + b) == multiset(a + b) + multiset{x}
  {
    calc {
      multiset(a + [x] + b);
      multiset(a) + multiset([x]) + multiset(b);
      multiset(a) + multiset(b) + multiset{x};
      multiset(a + b) + multiset{x};
    }
  }

  lemma Cancel<T>(a: multiset<T>, b: multiset<T>, x: T)
    requires a + multiset{x} == b + multiset{x}
    ensures a == b
  {
    assert a == (a + multiset{x}) - multiset{x};
    assert b == (b + multiset{x}) - multiset{x};
  }

  lemma {:induction false} EntriesSeated(ps: seq<Player>)
    ensures Seated(Entries(ps)) == ps
  {
    if ps != [] {
      EntriesSeated(ps[1..]);
      assert Entries(ps)[1..] == Entries(ps[1..]);
    }
  }

  /** Setting the bye aside leaves the other players, each once. */
  lemma UnbyedShares(avail: seq<Entry>)
    ensures multiset(Seated(Unbyed(avail).0)) + ByeSet(Unbyed(avail).1) == multiset(Seated(avail))
  {
    if |avail| % 2 == 1 {
      var w := LastWithoutBye(avail, |avail|);
      if w.Some? {
        RemovedShares(avail, w.value);
      } else {
        PoppedShares(avail);
      }
    }
  }

  lemma RemovedShares(avail: seq<Entry>, i: nat)
    requires i < |avail|
    ensures multiset(Seated(RemoveFirst(avail, avail[i]))) + multiset{avail[i].1.player} == multiset(Seated(avail))
  {
    var x := avail[i];
    var rest := RemoveFirst(avail, x);
    assert x in avail;
    assert multiset(rest + [x]) == multiset(avail);
    SeatedMultiset(rest + [x], avail);
    SeatedConcat(rest, [x]);
    assert Seated([x]) == [x.1.player];
  }

  lemma PoppedShares(avail: seq<Entry>)
    requires avail != []
    ensures multiset(Seated(avail[..|avail| - 1])) + multiset{avail[|avail| - 1].1.player} == multiset(Seated(avail))
  {
    var n := |avail|;
    assert avail == avail[..n - 1] + [avail[n - 1]];
    SeatedConcat(avail[..n - 1], [avail[n - 1]]);
    assert Seated([avail[n - 1]]) == [avail[n - 1].1.player];
  }
}
