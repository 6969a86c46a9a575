/**
 * The pairing arithmetic of tournament.py that does not look at a player's
 * record: game scores, the ordering keys every sort of the tournament uses,
 * the greedy Swiss pairer, knockout seeding and the knockout re-pairing.
 * Scores are counted in half-points, so 1, 1/2 and 0 are 2, 1 and 0.
 */
module Pairing {
  import opened Common

  // ---------------------------------------------------------------- game scores

  const WhiteWins := "1-0"
  const Drawn := "1/2-1/2"
  const BlackWins := "0-1"

  /** `white_score`, in half-points; `None` for any result other than the three decisive texts. */
  function WhiteScore(result: Option<string>): (s: Option<int>)
    ensures s == Some(2) <==> result == Some(WhiteWins)
    ensures s == Some(1) <==> result == Some(Drawn)
    ensures s == Some(0) <==> result == Some(BlackWins)
    ensures s.Some? ==> 0 <= s.value <= 2
  {
    if result == Some(WhiteWins) then Some(2)
    else if result == Some(Drawn) then Some(1)
    else if result == Some(BlackWins) then Some(0)
    else None
  }

  /** `black_score`: one point minus White's, a draw staying a half. */
  function BlackScore(result: Option<string>): (s: Option<int>) {
    var ws := WhiteScore(result);
    if ws.None? then None else if ws.value != 1 then Some(2 - ws.value) else Some(1)
  }

  /** Both scores exist together and always share out exactly one point. */
  lemma ScoresShareOnePoint(result: Option<string>)
    ensures WhiteScore(result).Some? <==> BlackScore(result).Some?
    ensures WhiteScore(result).Some? ==> WhiteScore(result).value + BlackScore(result).value == 2
    ensures WhiteScore(result).Some? ==>
      (WhiteScore(result).value > BlackScore(result).value <==> result == Some(WhiteWins))
      && (BlackScore(result).value > WhiteScore(result).value <==> result == Some(BlackWins))
  {
  }

  // ---------------------------------------------------------------- ordering keys

  /**
   * A sort key of the tournament: a tuple of integers compared left to
   * right, then the player's name. Every sort in tournament.py negates its
   * numbers to sort them descending and keeps names ascending.
   */
  datatype SortKey = SortKey(nums: seq<int>, name: string)

  /** Python's `<` on tuples of integers of the same length. */
  predicate NumsLess(a: seq<int>, b: seq<int>) {
    a != [] && b != [] && (a[0] < b[0] || (a[0] == b[0] && NumsLess(a[1..], b[1..])))
  }

  /** Python's `<` on strings: code point by code point, a proper prefix first. */
  predicate StrLess(a: string, b: string) {
    b != [] && (a == [] || a[0] < b[0] || (a[0] == b[0] && StrLess(a[1..], b[1..])))
  }

  predicate KeyLess(a: SortKey, b: SortKey) {
    NumsLess(a.nums, b.nums) || (a.nums == b.nums && StrLess(a.name, b.name))
  }

  lemma {:induction false} NumsLessTrans(a: seq<int>, b: seq<int>, c: seq<int>)
    requires NumsLess(a, b) && NumsLess(b, c)
    ensures NumsLess(a, c)
  {
    if a[0] == b[0] && b[0] == c[0] {
      NumsLessTrans(a[1..], b[1..], c[1..]);
    }
  }

  lemma {:induction false} NumsLessIrreflexive(a: seq<int>)
    ensures !NumsLess(a, a)
  {
    if a != [] {
      NumsLessIrreflexive(a[1..]);
    }
  }

  lemma {:induction false} StrLessTrans(a: string, b: string, c: string)
    requires StrLess(a, b) && StrLess(b, c)
    ensures StrLess(a, c)
  {
    if a != [] && a[0] == b[0] && b[0] == c[0] {
      StrLessTrans(a[1..], b[1..], c[1..]);
    }
  }

  lemma {:induction false} StrLessIrreflexive(a: string)
    ensures !StrLess(a, a)
  {
    if a != [] {
      StrLessIrreflexive(a[1..]);
    }
  }

  /** The key order is a strict order, which is what makes sorting by it well defined. */
  lemma KeyLessOrder(a: SortKey, b: SortKey, c: SortKey)
    ensures !KeyLess(a, a)
    ensures KeyLess(a, b) && KeyLess(b, c) ==> KeyLess(a, c)
  {
    NumsLessIrreflexive(a.nums);
    StrLessIrreflexive(a.name);
    if KeyLess(a, b) && KeyLess(b, c) {
      if NumsLess(a.nums, b.nums) && NumsLess(b.nums, c.nums) {
        NumsLessTrans(a.nums, b.nums, c.nums);
      } else if a.nums == b.nums && b.nums == c.nums {
        StrLessTrans(a.name, b.name, c.name);
      }
    }
  }

  // ---------------------------------------------------------------- sorting by key

  /** No element comes after one whose key is larger. */
  predicate SortedByKey<T>(s: seq<(SortKey, T)>) {
    forall i, j :: 0 <= i < j < |s| ==> !KeyLess(s[j].0, s[i].0)
  }

  /** `x` placed after every element whose key is not larger than its own. */
  function InsertByKey<T>(x: (SortKey, T), s: seq<(SortKey, T)>): (r: seq<(SortKey, T)>)
    ensures |r| == |s| + 1
  {
    if s == [] || KeyLess(x.0, s[0].0) then [x] + s
    else [s[0]] + InsertByKey(x, s[1..])
  }

  /**
   * `list.sort(key=...)`: a stable sort, here by inserting the elements one
   * after the other behind those with a key not larger, so that equal keys
   * keep their order.
   */
  function SortByKey<T>(s: seq<(SortKey, T)>): (r: seq<(SortKey, T)>)
    ensures |r| == |s|
  {
    if s == [] then []
    else InsertByKey(s[|s| - 1], SortByKey(s[..|s| - 1]))
  }

  lemma {:induction false} InsertByKeyMultiset<T>(x: (SortKey, T), s: seq<(SortKey, T)>)
    ensures multiset(InsertByKey(x, s)) == multiset(s) + multiset{x}
  {
    if s != [] && !KeyLess(x.0, s[0].0) {
      InsertByKeyMultiset(x, s[1..]);
      assert s == [s[0]] + s[1..];
    }
  }

  lemma {:induction false} InsertByKeyValues<T>(x: (SortKey, T), s: seq<(SortKey, T)>)
    ensures multiset(Values(InsertByKey(x, s))) == multiset(Values(s)) + multiset{x.1}
  {
    if s != [] && !KeyLess(x.0, s[0].0) {
      InsertByKeyValues(x, s[1..]);
      assert Values(InsertByKey(x, s)) == [s[0].1] + Values(InsertByKey(x, s[1..]));
      assert Values(s) == [s[0].1] + Values(s[1..]);
    }
  }

  /** The sort rearranges its input: the same elements. */
  lemma {:induction false} SortByKeyMultiset<T>(s: seq<(SortKey, T)>)
    ensures multiset(SortByKey(s)) == multiset(s)
  {
    if s != [] {
      var n := |s| - 1;
      SortByKeyMultiset(s[..n]);
      InsertByKeyMultiset(s[n], SortByKey(s[..n]));
      assert s == s[..n] + [s[n]];
    }
  }

  /** The sorted values are the values of the input, rearranged. */
  lemma {:induction false} SortByKeyValues<T>(s: seq<(SortKey, T)>)
    ensures multiset(Values(SortByKey(s))) == multiset(Values(s))
  {
    if s != [] {
      var n := |s| - 1;
      var init := s[..n];
      var sorted := SortByKey(init);
      SortByKeyValues(init);
      InsertByKeyValues(s[n], sorted);
      assert SortByKey(s) == InsertByKey(s[n], sorted);
      assert s == init + [s[n]];
      ValuesSnoc(init, s[n]);
      calc {
        multiset(Values(SortByKey(s)));
        multiset(Values(sorted)) + multiset{s[n].1};
        multiset(Values(init)) + multiset{s[n].1};
        multiset(Values(init) + [s[n].1]);
        multiset(Values(s));
      }
    }
  }

  lemma ValuesSnoc<T>(s: seq<(SortKey, T)>, x: (SortKey, T))
    ensures Values(s + [x]) == Values(s) + [x.1]
  {
  }

  lemma {:induction false} InsertByKeySorted<T>(x: (SortKey, T), s: seq<(SortKey, T)>)
    requires SortedByKey(s)
    ensures SortedByKey(InsertByKey(x, s))
  {
    if s == [] || KeyLess(x.0, s[0].0) {
      var r := [x] + s;
      forall j | 0 < j < |r|
        ensures !KeyLess(r[j].0, x.0)
      {
        if KeyLess(r[j].0, x.0) {
          KeyLessOrder(r[j].0, x.0, s[0].0);
        }
      }
    } else {
      InsertByKeySorted(x, s[1..]);
      InsertByKeyMultiset(x, s[1..]);
      var t := InsertByKey(x, s[1..]);
      forall k | 0 <= k < |t|
        ensures !KeyLess(t[k].0, s[0].0)
      {
        assert t[k] in multiset(s[1..]) + multiset{x};
        if t[k] != x {
          assert t[k] in s[1..];
        }
      }
    }
  }

  /** The sort's result is ordered by key. */
  lemma {:induction false} SortByKeySorted<T>(s: seq<(SortKey, T)>)
    ensures SortedByKey(SortByKey(s))
  {
    if s != [] {
      var n := |s| - 1;
      SortByKeySorted(s[..n]);
      InsertByKeySorted(s[n], SortByKey(s[..n]));
    }
  }

  /** The elements whose key is `k`, in their order. */
  function WithKey<T>(s: seq<(SortKey, T)>, k: SortKey): seq<(SortKey, T)> {
    if s == [] then [] else (if s[0].0 == k then [s[0]] else []) + WithKey(s[1..], k)
  }

  lemma {:induction false} WithKeySnoc<T>(s: seq<(SortKey, T)>, x: (SortKey, T), k: SortKey)
    ensures WithKey(s + [x], k) == WithKey(s, k) + (if x.0 == k then [x] else [])
  {
    if s != [] {
      assert (s + [x])[1..] == s[1..] + [x];
      WithKeySnoc(s[1..], x, k);
    }
  }

  lemma {:induction false} WithKeyNone<T>(s: seq<(SortKey, T)>, k: SortKey)
    requires forall i :: 0 <= i < |s| ==> s[i].0 != k
    ensures WithKey(s, k) == []
  {
    if s != [] {
      WithKeyNone(s[1..], k);
    }
  }

  /**
   * Inserting into a sorted sequence puts `x` behind every element with
   * the same key: among the elements of one key, the order is the old one
   * with `x` last.
   */
  lemma {:induction false} InsertByKeyWithKey<T>(x: (SortKey, T), s: seq<(SortKey, T)>, k: SortKey)
    requires SortedByKey(s)
    ensures WithKey(InsertByKey(x, s), k) == WithKey(s, k) + (if x.0 == k then [x] else [])
  {
    if s == [] {
    } else if KeyLess(x.0, s[0].0) {
      if x.0 == k {
        // every element of `s` has a key not below `s[0]`'s, which is above `k`
        forall i | 0 <= i < |s|
          ensures s[i].0 != k
        {
          if i == 0 {
            KeyLessOrder(k, k, k);
          } else {
            assert !KeyLess(s[i].0, s[0].0);
          }
        }
        WithKeyNone(s, k);
      }
    } else {
      assert SortedByKey(s[1..]);
      InsertByKeyWithKey(x, s[1..], k);
    }
  }

  /** The sort is stable: the elements of each key keep their order. */
  lemma {:induction false} SortByKeyStable<T>(s: seq<(SortKey, T)>, k: SortKey)
    ensures WithKey(SortByKey(s), k) == WithKey(s, k)
  {
    if s != [] {
      var n := |s| - 1;
      SortByKeyStable(s[..n], k);
      SortByKeySorted(s[..n]);
      InsertByKeyWithKey(s[n], SortByKey(s[..n]), k);
      assert s == s[..n] + [s[n]];
      WithKeySnoc(s[..n], s[n], k);
    }
  }

  /** The second components of a keyed sequence. */
  function Values<T>(s: seq<(SortKey, T)>): (r: seq<T>)
    ensures |r| == |s| && forall i :: 0 <= i < |s| ==> r[i] == s[i].1
  {
    if s == [] then [] else [s[0].1] + Values(s[1..])
  }

  // ---------------------------------------------------------------- the greedy Swiss pairer

  /** The pair key `frozenset({a, b})` of two player names. */
  function PairKey(a: string, b: string): set<string> {
    {a, b}
  }

  /**
   * The position in `rest` of the first player `p` has not met, or 0 when
   * `p` has met them all.
   */
  function FirstFresh<T>(p: T, rest: seq<T>, name: T -> string, played: set<set<string>>): (k: nat)
    requires rest != []
    ensures k < |rest|
    ensures (exists i :: 0 <= i < |rest| && PairKey(name(p), name(rest[i])) !in played) ==>
      PairKey(name(p), name(rest[k])) !in played
      && forall i :: 0 <= i < k ==> PairKey(name(p), name(rest[i])) in played
    ensures (forall i :: 0 <= i < |rest| ==> PairKey(name(p), name(rest[i])) in played) ==> k == 0
  {
    if PairKey(name(p), name(rest[0])) !in played || |rest| == 1 then 0
    else
      var k := FirstFresh(p, rest[1..], name, played);
      if PairKey(name(p), name(rest[1..][k])) !in played then k + 1 else 0
  }

  /** `rest` without its element at `k`: `rest[:k] + rest[k+1:]`. */
  function Without<T>(rest: seq<T>, k: nat): (r: seq<T>)
    requires k < |rest|
    ensures |r| == |rest| - 1
    ensures multiset(r) + multiset{rest[k]} == multiset(rest)
  {
    assert rest == rest[..k] + [rest[k]] + rest[k + 1..];
    rest[..k] + rest[k + 1..]
  }

  /**
   * `_backtrack_pair` as it behaves: its recursive call never returns
   * `None`, so the head player is paired with the first opponent it has not
   * met (or, failing that, the next player), and the rest is paired the
   * same way. Consecutive elements of the result form the pairs. Python
   * fails with `IndexError` on a list of odd length.
   */
  function BacktrackPair<T>(ps: seq<T>, name: T -> string, played: set<set<string>>): (r: seq<T>)
    requires |ps| % 2 == 0
    ensures |r| == |ps|
    decreases |ps|
  {
    if ps == [] then []
    else if |ps| == 2 then ps
    else
      var rest := ps[1..];
      var k := FirstFresh(ps[0], rest, name, played);
      var sub := BacktrackPair(Without(rest, k), name, played);
      [ps[0], rest[k]] + sub
  }

  /** The pairer returns every player once: a rearrangement of its input. */
  lemma {:induction false} BacktrackPairPermutes<T>(ps: seq<T>, name: T -> string, played: set<set<string>>)
    requires |ps| % 2 == 0
    ensures multiset(BacktrackPair(ps, name, played)) == multiset(ps)
    decreases |ps|
  {
    if |ps| > 2 {
      var k := FirstFresh(ps[0], ps[1..], name, played);
      var w := Without(ps[1..], k);
      BacktrackPairPermutes(w, name, played);
      PermutesStep(ps, k, w, BacktrackPair(w, name, played));
    }
  }

  /** One step of the pairer: taking out the head and one opponent and rearranging the rest. */
  lemma PermutesStep<T>(ps: seq<T>, k: nat, w: seq<T>, sub: seq<T>)
    requires |ps| > 2 && k < |ps| - 1 && w == Without(ps[1..], k)
    requires multiset(sub) == multiset(w)
    ensures multiset([ps[0], ps[1..][k]] + sub) == multiset(ps)
  {
    var rest := ps[1..];
    assert ps == [ps[0]] + rest;
    calc {
      multiset([ps[0], rest[k]] + sub);
      multiset{ps[0], rest[k]} + multiset(w);
      multiset{ps[0]} + (multiset(w) + multiset{rest[k]});
      multiset{ps[0]} + multiset(rest);
      multiset(ps);
    }
  }

  /**
   * The first pair holds the head player and the first player after it
   * that it has not met; when it has met all of them, the next player.
   */
  lemma BacktrackPairHead<T>(ps: seq<T>, name: T -> string, played: set<set<string>>)
    requires |ps| % 2 == 0 && ps != []
    ensures var r := BacktrackPair(ps, name, played);
      && r[0] == ps[0]
      && ((exists i :: 1 <= i < |ps| && PairKey(name(ps[0]), name(ps[i])) !in played) ==>
            PairKey(name(ps[0]), name(r[1])) !in played
            && exists k :: 1 <= k < |ps| && r[1] == ps[k]
                 && forall i :: 1 <= i < k ==> PairKey(name(ps[0]), name(ps[i])) in played)
      && ((forall i :: 1 <= i < |ps| ==> PairKey(name(ps[0]), name(ps[i])) in played) ==> r[1] == ps[1])
  {
    var r := BacktrackPair(ps, name, played);
    var rest := ps[1..];
    if |ps| == 2 {
      assert r[1] == ps[1];
    } else {
      var k := FirstFresh(ps[0], rest, name, played);
      assert r[1] == rest[k] == ps[k + 1];
      if exists i :: 1 <= i < |ps| && PairKey(name(ps[0]), name(ps[i])) !in played {
        var i :| 1 <= i < |ps| && PairKey(name(ps[0]), name(ps[i])) !in played;
        assert PairKey(name(ps[0]), name(rest[i - 1])) !in played;
        assert forall i' :: 1 <= i' < k + 1 ==> PairKey(name(ps[0]), name(ps[i'])) in played by {
          forall i' | 1 <= i' < k + 1 ensures PairKey(name(ps[0]), name(ps[i'])) in played {
            assert ps[i'] == rest[i' - 1];
          }
        }
      }
      if forall i :: 1 <= i < |ps| ==> PairKey(name(ps[0]), name(ps[i])) in played {
        assert forall i :: 0 <= i < |rest| ==> PairKey(name(ps[0]), name(rest[i])) in played by {
          forall i | 0 <= i < |rest| ensures PairKey(name(ps[0]), name(rest[i])) in played {
            assert rest[i] == ps[i + 1];
          }
        }
      }
    }
  }

  // ---------------------------------------------------------------- knockout seeding

  /** 2 to some power. */
  predicate IsPowerOfTwo(x: nat) {
    x == 1 || (x > 1 && x % 2 == 0 && IsPowerOfTwo(x / 2))
  }

  /** The least power of two at least `n`, found by doubling from `s`. */
  function BracketSizeFrom(n: nat, s: nat): (size: nat)
    requires IsPowerOfTwo(s)
    ensures IsPowerOfTwo(size) && size >= n && size >= s
    ensures size == s || size / 2 < n
    decreases n - s
  {
    if s >= n then s
    else
      assert (2 * s) / 2 == s;
      BracketSizeFrom(n, 2 * s)
  }

  /** The least power of two that is at least `n` (1 for an empty roster). */
  function BracketSize(n: nat): (size: nat)
    ensures IsPowerOfTwo(size) && size >= n
    ensures size == 1 || size / 2 < n
  {
    BracketSizeFrom(n, 1)
  }

  /** The roster padded with empty seats up to `size`. */
  function Seat<T>(ps: seq<T>, i: nat): Option<T> {
    if i < |ps| then Some(ps[i]) else None
  }

  /** `seed_bracket`: seat `i` meets seat `size - 1 - i`, the best seed against the worst. */
  function Bracket<T>(ps: seq<T>): (b: seq<(Option<T>, Option<T>)>)
    ensures |b| == BracketSize(|ps|) / 2
  {
    var size := BracketSize(|ps|);
    seq(size / 2, i requires 0 <= i < size / 2 => (Seat(ps, i), Seat(ps, size - 1 - i)))
  }

  /** The loop of `seed_bracket`: doubling for the size, then one pair per seat in the top half. */
  method SeedBracket<T>(ps: seq<T>) returns (bracket: seq<(Option<T>, Option<T>)>)
    ensures bracket == Bracket(ps)
  {
    var n := |ps|;
    var size := 1;
    while size < n
      invariant IsPowerOfTwo(size)
      invariant BracketSizeFrom(n, size) == BracketSize(n)
      decreases n - size
    {
      assert (2 * size) / 2 == size;
      size := size * 2;
    }
    bracket := [];
    var i := 0;
    while i < size / 2
      invariant i <= size / 2
      invariant bracket == Bracket(ps)[..i]
    {
      bracket := bracket + [(Seat(ps, i), Seat(ps, size - 1 - i))];
      i := i + 1;
    }
  }

  /**
   * With at least one player, the real players sit in the first pair slots:
   * every pair holds a player first, and exactly `size - n` pairs hold an
   * empty seat, which is a bye.
   */
  lemma BracketByes<T>(ps: seq<T>)
    requires ps != []
    ensures var b := Bracket(ps); var size := BracketSize(|ps|);
      && (forall i :: 0 <= i < |b| ==> b[i].0 == Some(ps[i]))
      && (forall i :: 0 <= i < |b| ==> (b[i].1.None? <==> i < size - |ps|))
      && size - |ps| <= |b|
  {
    var b := Bracket(ps);
    var size := BracketSize(|ps|);
    var n := |ps|;
    if size > 1 {
      assert size % 2 == 0;
      assert size == 2 * (size / 2);
      assert size / 2 < n;
    }
    forall i | 0 <= i < |b|
      ensures b[i].0 == Some(ps[i])
      ensures b[i].1.None? <==> i < size - n
    {
      assert b[i] == (Seat(ps, i), Seat(ps, size - 1 - i));
    }
  }

  /** Every player of the roster has exactly one seat in the bracket. */
  lemma BracketSeatsEveryone<T>(ps: seq<T>, j: nat)
    requires |ps| >= 2 && j < |ps|
    ensures var b := Bracket(ps); var size := BracketSize(|ps|);
      || (j < |b| && b[j].0 == Some(ps[j]))
      || (size - 1 - j < |b| && b[size - 1 - j].1 == Some(ps[j]))
  {
    var b := Bracket(ps);
    var size := BracketSize(|ps|);
    assert size % 2 == 0;
    assert size == 2 * (size / 2);
    if j >= size / 2 {
      var q := size - 1 - j;
      assert 0 <= q < size / 2;
      assert b[q] == (Seat(ps, q), Seat(ps, size - 1 - q));
    } else {
      assert b[j] == (Seat(ps, j), Seat(ps, size - 1 - j));
    }
  }

  // ---------------------------------------------------------------- knockout re-pairing

  /** The `k`-th pair of `next_round`: White first when the colour coin of that pair comes up. */
  function KnockoutPair<T>(lst: seq<T>, coin: nat -> bool, k: nat): (T, T)
    requires 2 * k + 1 < |lst|
  {
    if coin(k) then (lst[2 * k], lst[2 * k + 1]) else (lst[2 * k + 1], lst[2 * k])
  }

  /**
   * The pairs of `next_round` for the winners in their shuffled order: the
   * players two by two. A last odd player gets no pair.
   */
  function KnockoutPairs<T>(lst: seq<T>, coin: nat -> bool): (r: seq<(T, T)>)
    ensures |r| == |lst| / 2
  {
    seq(|lst| / 2, k requires 0 <= k < |lst| / 2 => KnockoutPair(lst, coin, k))
  }

  /** Each pair holds the two players at positions `2k` and `2k + 1`, in one order or the other. */
  lemma KnockoutPairsPlayers<T>(lst: seq<T>, coin: nat -> bool, k: nat)
    requires k < |lst| / 2
    ensures multiset{KnockoutPairs(lst, coin)[k].0, KnockoutPairs(lst, coin)[k].1}
      == multiset{lst[2 * k], lst[2 * k + 1]}
  {
  }

  /**
   * `next_round`: `shuffled` is the order `random.shuffle` produced and
   * `coin(k)` the draw `random.random() < 0.5` for the `k`-th pair.
   */
  method NextRound<T>(shuffled: seq<T>, coin: nat -> bool) returns (pairs: seq<(T, T)>)
    ensures pairs == KnockoutPairs(shuffled, coin)
  {
    pairs := [];
    var i := 0;
    while i < |shuffled| - 1
      invariant 0 <= i <= |shuffled| && i == 2 * |pairs|
      invariant pairs == KnockoutPairs(shuffled, coin)[..|pairs|]
    {
      if coin(|pairs|) {
        pairs := pairs + [(shuffled[i], shuffled[i + 1])];
      } else {
        pairs := pairs + [(shuffled[i + 1], shuffled[i])];
      }
      i := i + 2;
    }
  }

  /** Two players of the same pair are different players when the list has no repeats. */
  lemma KnockoutPairsDistinct<T>(lst: seq<T>, coin: nat -> bool, k: nat)
    requires Distinct(lst) && k < |lst| / 2
    ensures KnockoutPairs(lst, coin)[k].0 != KnockoutPairs(lst, coin)[k].1
  {
  }
}
