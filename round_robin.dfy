/**
 * The round-robin schedule of tournament.py (`generate_all_rounds`): the
 * circle method. The first seat stays put while the other seats rotate one
 * step to the right after every round; in each round seat `i` meets seat
 * `n - 1 - i`. An odd roster gets one empty seat, and whoever faces it sits
 * the round out. The schedule is generic in the player type.
 */
module RoundRobin {
  import opened Common

  // ---------------------------------------------------------------- seats and rotation

  /** The roster as seats, with one empty seat (`None`) added to an odd roster. */
  function Padded<T>(ps: seq<T>): (l: seq<Option<T>>)
    ensures |l| % 2 == 0 && |ps| <= |l| <= |ps| + 1
    ensures forall i :: 0 <= i < |ps| ==> l[i] == Some(ps[i])
    ensures forall i :: |ps| <= i < |l| ==> l[i] == None
  {
    var seats := seq(|ps|, i requires 0 <= i < |ps| => Some(ps[i]));
    if |ps| % 2 == 1 then seats + [None] else seats
  }

  /** A roster without repeats gives seats without repeats: only one seat can be empty. */
  lemma PaddedDistinct<T>(ps: seq<T>)
    requires Distinct(ps)
    ensures Distinct(Padded(ps))
  {
    var l := Padded(ps);
    forall i, j | 0 <= i < j < |l|
      ensures l[i] != l[j]
    {
      if j < |ps| {
        assert ps[i] != ps[j];
      }
    }
  }

  /** `[rotating[-1]] + rotating[:-1]`: the last seat moves to the front. */
  function RotateRight<T>(r: seq<T>): (q: seq<T>)
    requires r != []
    ensures |q| == |r| && q[0] == r[|r| - 1]
    ensures forall j :: 1 <= j < |q| ==> q[j] == r[j - 1]
  {
    [r[|r| - 1]] + r[..|r| - 1]
  }

  /** The rotating seats after `k` rotations to the right: seat `j` holds what seat `j - k` (mod length) held. */
  function RotatedBy<T>(r: seq<T>, k: nat): (q: seq<T>)
    requires k <= |r|
    ensures |q| == |r|
  {
    seq(|r|, j requires 0 <= j < |r| => if j >= k then r[j - k] else r[j - k + |r|])
  }

  /** One more rotation of the rotating seats is one more step of the closed form. */
  lemma RotateStep<T>(r: seq<T>, k: nat)
    requires k < |r|
    ensures RotateRight(RotatedBy(r, k)) == RotatedBy(r, k + 1)
  {
  }

  /** After as many rotations as there are seats, every seat is back in place. */
  lemma RotatedByFull<T>(r: seq<T>)
    ensures RotatedBy(r, |r|) == r
  {
  }

  /** `circle = [fixed] + rotating` in round `k` (counted from 0). */
  function Circle<T>(l: seq<Option<T>>, k: nat): (c: seq<Option<T>>)
    requires l != [] && k < |l|
    ensures |c| == |l|
  {
    [l[0]] + RotatedBy(l[1..], k)
  }

  /** Where rotating seat `a` of `m` has moved after `k < m` rotations. */
  function Shift(a: nat, k: nat, m: nat): nat
    requires a < m && k < m
  {
    if a + k < m then a + k else a + k - m
  }

  /** Where the player first seated at `x` sits in round `k`, with `m` rotating seats. */
  function CirclePos(x: nat, k: nat, m: nat): nat
    requires x <= m && k < m
  {
    if x == 0 then 0 else 1 + Shift(x - 1, k, m)
  }

  /** The circle of round `k` seats the player first seated at `x` at `CirclePos(x, k)`. */
  lemma CircleAt<T>(l: seq<Option<T>>, k: nat, x: nat)
    requires |l| >= 2 && k < |l| - 1 && x < |l|
    ensures CirclePos(x, k, |l| - 1) < |l|
    ensures Circle(l, k)[CirclePos(x, k, |l| - 1)] == l[x]
  {
  }

  /** A rotation of seats without repeats has no repeats either. */
  lemma CircleDistinct<T>(l: seq<Option<T>>, k: nat)
    requires |l| >= 2 && k < |l| - 1 && Distinct(l)
    ensures Distinct(Circle(l, k))
  {
    var c := Circle(l, k);
    var m := |l| - 1;
    forall i, j | 0 <= i < j < |c|
      ensures c[i] != c[j]
    {
      var oi := if i == 0 then 0 else 1 + (if i - 1 >= k then i - 1 - k else i - 1 - k + m);
      var oj := if j == 0 then 0 else 1 + (if j - 1 >= k then j - 1 - k else j - 1 - k + m);
      assert c[i] == l[oi] && c[j] == l[oj];
      assert oi != oj;
    }
  }

  // ---------------------------------------------------------------- one round

  /**
   * The pair of seats `i` and `n - 1 - i` when both are occupied: the lower
   * seat plays White when `i` is even, Black when it is odd.
   */
  function SlotPair<T>(c: seq<Option<T>>, i: nat): seq<(T, T)>
    requires i < |c| / 2
  {
    var p1 := c[i];
    var p2 := c[|c| - 1 - i];
    if p1.None? || p2.None? then []
    else if i % 2 == 0 then [(p1.value, p2.value)]
    else [(p2.value, p1.value)]
  }

  /** The pairs of the first `h` seat slots of a circle, in slot order. */
  function Slots<T>(c: seq<Option<T>>, h: nat): seq<(T, T)>
    requires h <= |c| / 2
  {
    if h == 0 then [] else Slots(c, h - 1) + SlotPair(c, h - 1)
  }

  /** The games of round `k` (counted from 0) for the seats `l`. */
  function Round<T>(l: seq<Option<T>>, k: nat): seq<(T, T)>
    requires l != [] && k < |l|
  {
    var c := Circle(l, k);
    Slots(c, |c| / 2)
  }

  /** The colours of every game of a round swapped, for the second cycle of a double round robin. */
  function Swapped<T>(pairs: seq<(T, T)>): (r: seq<(T, T)>)
    ensures |r| == |pairs|
  {
    seq(|pairs|, j requires 0 <= j < |pairs| => (pairs[j].1, pairs[j].0))
  }

  /**
   * `generate_all_rounds`: `n - 1` rounds for `n` seats, followed, when
   * `double` is set, by the same rounds with colours reversed. Python
   * fails with `IndexError` on an empty roster.
   */
  function Schedule<T>(ps: seq<T>, double: bool): (rounds: seq<seq<(T, T)>>)
    requires ps != []
  {
    var l := Padded(ps);
    var single := seq(|l| - 1, k requires 0 <= k < |l| - 1 => Round(l, k));
    if double then single + seq(|single|, k requires 0 <= k < |single| => Swapped(single[k]))
    else single
  }

  // ---------------------------------------------------------------- the loop

  /** The inner loop of `generate_all_rounds`: seat `i` against seat `n - 1 - i`, skipping the empty seat. */
  method PairSeats<T>(circle: seq<Option<T>>) returns (pairs: seq<(T, T)>)
    ensures pairs == Slots(circle, |circle| / 2)
  {
    var n := |circle|;
    pairs := [];
    var i := 0;
    while i < n / 2
      invariant i <= n / 2
      invariant pairs == Slots(circle, i)
    {
      var p1 := circle[i];
      var p2 := circle[n - 1 - i];
      if p1.Some? && p2.Some? {
        if i % 2 == 0 {
          pairs := pairs + [(p1.value, p2.value)];
        } else {
          pairs := pairs + [(p2.value, p1.value)];
        }
      }
      i := i + 1;
    }
  }

  /** The outer loop of `generate_all_rounds`: pair the circle, then rotate, `n - 1` times. */
  method SingleCycle<T>(l: seq<Option<T>>) returns (single: seq<seq<(T, T)>>)
    requires l != []
    ensures |single| == |l| - 1
    ensures forall k :: 0 <= k < |single| ==> single[k] == Round(l, k)
  {
    var n := |l|;
    var fixed := l[0];
    var rotating := l[1..];
    assert rotating == RotatedBy(l[1..], 0);
    single := [];
    var k := 0;
    while k < n - 1
      invariant k <= n - 1 && rotating == RotatedBy(l[1..], k)
      invariant |single| == k && forall r :: 0 <= r < k ==> single[r] == Round(l, r)
    {
      var circle := [fixed] + rotating;
      assert circle == Circle(l, k);
      var pairs := PairSeats(circle);
      single := single + [pairs];
      RotateStep(l[1..], k);
      rotating := RotateRight(rotating);
      k := k + 1;
    }
  }

  /** The second half of a double round robin: `[(b, w) for w, b in round_pairs]` for every round. */
  method ReverseColours<T>(single: seq<seq<(T, T)>>) returns (reversed: seq<seq<(T, T)>>)
    ensures |reversed| == |single|
    ensures forall r :: 0 <= r < |single| ==> reversed[r] == Swapped(single[r])
  {
    reversed := [];
    var j := 0;
    while j < |single|
      invariant j <= |single| && |reversed| == j
      invariant forall r :: 0 <= r < j ==> reversed[r] == Swapped(single[r])
    {
      reversed := reversed + [Swapped(single[j])];
      j := j + 1;
    }
  }

  /** The loops of `generate_all_rounds`: rotate, pair the seats slot by slot, then the reversed cycle. */
  method GenerateAllRounds<T>(ps: seq<T>, double: bool) returns (rounds: seq<seq<(T, T)>>)
    requires ps != []
    ensures rounds == Schedule(ps, double)
  {
    var l := Padded(ps);
    var single := SingleCycle(l);
    assert single == seq(|l| - 1, k requires 0 <= k < |l| - 1 => Round(l, k));
    if double {
      var reversed := ReverseColours(single);
      assert reversed == seq(|single|, r requires 0 <= r < |single| => Swapped(single[r]));
      rounds := single + reversed;
    } else {
      rounds := single;
    }
  }

  // ---------------------------------------------------------------- properties

  /** `n - 1` rounds for `n` seats, twice as many in a double round robin. */
  lemma ScheduleLength<T>(ps: seq<T>, double: bool)
    requires ps != []
    ensures var n := if |ps| % 2 == 1 then |ps| + 1 else |ps|;
      |Schedule(ps, double)| == (if double then 2 * (n - 1) else n - 1)
  {
  }

  /** The second cycle plays every game of the first again, with the colours reversed. */
  lemma DoubleReversesColours<T>(ps: seq<T>, k: nat, j: nat)
    requires ps != []
    requires k < |Schedule(ps, false)| && j < |Schedule(ps, false)[k]|
    ensures var half := |Schedule(ps, false)|;
      && |Schedule(ps, true)| == 2 * half
      && Schedule(ps, true)[k] == Schedule(ps, false)[k]
      && |Schedule(ps, true)[half + k]| == |Schedule(ps, false)[k]|
      && Schedule(ps, true)[half + k][j].0 == Schedule(ps, false)[k][j].1
      && Schedule(ps, true)[half + k][j].1 == Schedule(ps, false)[k][j].0
  {
  }

  /** `u` and `v` play each other in one of `pairs`, with either colours. */
  predicate Meets<T(==)>(pairs: seq<(T, T)>, u: T, v: T) {
    exists j :: 0 <= j < |pairs| && (pairs[j] == (u, v) || pairs[j] == (v, u))
  }

  /** No player is in two games of `pairs`, nor plays themself. */
  predicate NoRepeats<T(==)>(pairs: seq<(T, T)>) {
    && (forall j :: 0 <= j < |pairs| ==> pairs[j].0 != pairs[j].1)
    && (forall j1, j2 :: 0 <= j1 < j2 < |pairs| ==>
          && pairs[j1].0 != pairs[j2].0 && pairs[j1].0 != pairs[j2].1
          && pairs[j1].1 != pairs[j2].0 && pairs[j1].1 != pairs[j2].1)
  }

  lemma MeetsAppend<T>(a: seq<(T, T)>, b: seq<(T, T)>, u: T, v: T)
    ensures Meets(a + b, u, v) <==> Meets(a, u, v) || Meets(b, u, v)
  {
    if Meets(a, u, v) {
      var j :| 0 <= j < |a| && (a[j] == (u, v) || a[j] == (v, u));
      assert (a + b)[j] == a[j];
    }
    if Meets(a + b, u, v) {
      var j :| 0 <= j < |a + b| && ((a + b)[j] == (u, v) || (a + b)[j] == (v, u));
      if j >= |a| {
        assert b[j - |a|] == (a + b)[j];
      }
    }
    if Meets(b, u, v) {
      var j :| 0 <= j < |b| && (b[j] == (u, v) || b[j] == (v, u));
      assert (a + b)[|a| + j] == b[j];
    }
  }

  lemma NoRepeatsSnoc<T>(a: seq<(T, T)>, p: (T, T))
    requires NoRepeats(a) && p.0 != p.1
    requires forall j :: 0 <= j < |a| ==> a[j].0 != p.0 && a[j].0 != p.1 && a[j].1 != p.0 && a[j].1 != p.1
    ensures NoRepeats(a + [p])
  {
  }

  /** No game of `pairs` involves a player seated between slot `h` and its partner seat `n - 1 - h`. */
  predicate Outside<T(==)>(c: seq<Option<T>>, pairs: seq<(T, T)>, h: nat) {
    forall j, s :: 0 <= j < |pairs| && h <= s < |c| - h ==>
      c[s] != Some(pairs[j].0) && c[s] != Some(pairs[j].1)
  }

  /** The games of the first `h` slots leave the middle seats alone, and none repeats a player. */
  lemma {:induction false} SlotsSeated<T>(c: seq<Option<T>>, h: nat)
    requires Distinct(c) && h <= |c| / 2
    ensures Outside(c, Slots(c, h), h)
    ensures NoRepeats(Slots(c, h))
  {
    if h > 0 {
      var i := h - 1;
      var n := |c|;
      var a := Slots(c, i);
      SlotsSeated(c, i);
      var b := SlotPair(c, i);
      assert Slots(c, h) == a + b;
      if b != [] {
        var p := b[0];
        assert b == [p];
        assert c[i] == Some(p.0) || c[i] == Some(p.1);
        assert c[n - 1 - i] == Some(p.0) || c[n - 1 - i] == Some(p.1);
        assert c[i] != c[n - 1 - i];
        forall j | 0 <= j < |a|
          ensures a[j].0 != p.0 && a[j].0 != p.1 && a[j].1 != p.0 && a[j].1 != p.1
        {
          assert c[i] != Some(a[j].0) && c[i] != Some(a[j].1);
          assert c[n - 1 - i] != Some(a[j].0) && c[n - 1 - i] != Some(a[j].1);
        }
        NoRepeatsSnoc(a, p);
        forall j, s | 0 <= j < |a + b| && h <= s < n - h
          ensures c[s] != Some((a + b)[j].0) && c[s] != Some((a + b)[j].1)
        {
          if j == |a| {
            assert (a + b)[j] == p;
            assert c[s] != c[i] && c[s] != c[n - 1 - i];
          } else {
            assert (a + b)[j] == a[j];
          }
        }
      } else {
        assert a + b == a;
      }
    }
  }

  /** In every round, each player plays at most one game, and never against themself. */
  lemma RoundNoRepeats<T>(ps: seq<T>, k: nat)
    requires ps != [] && Distinct(ps) && k < |Padded(ps)| - 1
    ensures NoRepeats(Schedule(ps, false)[k])
  {
    var l := Padded(ps);
    PaddedDistinct(ps);
    CircleDistinct(l, k);
    var c := Circle(l, k);
    SlotsSeated(c, |c| / 2);
  }

  /** Two players seated at `pu` and `pv` meet in the first `h` slots exactly when their seats face each other there. */
  lemma {:induction false} SlotsMeet<T>(c: seq<Option<T>>, h: nat, u: T, v: T, pu: nat, pv: nat)
    requires Distinct(c) && h <= |c| / 2
    requires pu < |c| && pv < |c| && pu != pv && c[pu] == Some(u) && c[pv] == Some(v)
    ensures Meets(Slots(c, h), u, v) <==>
      pu + pv == |c| - 1 && (pu < h || pv < h)
  {
    if h > 0 {
      var i := h - 1;
      SlotsMeet(c, i, u, v, pu, pv);
      MeetsAppend(Slots(c, i), SlotPair(c, i), u, v);
      var n := |c|;
      if Meets(SlotPair(c, i), u, v) {
        assert c[i] == Some(u) || c[i] == Some(v);
        assert c[n - 1 - i] == Some(u) || c[n - 1 - i] == Some(v);
      }
      if pu == i && pv == n - 1 - i {
        assert SlotPair(c, i)[0] == (u, v) || SlotPair(c, i)[0] == (v, u);
      } else if pv == i && pu == n - 1 - i {
        assert SlotPair(c, i)[0] == (u, v) || SlotPair(c, i)[0] == (v, u);
      }
    }
  }

  /**
   * With `m` rotating seats, `m` odd, the players first seated at `x` and
   * `y` face each other (their seats add up to `m`) in exactly one of the
   * `m` rounds.
   */
  lemma FaceOnce(x: nat, y: nat, m: nat)
    requires m % 2 == 1 && x <= m && y <= m && x != y
    ensures exists k :: 0 <= k < m && CirclePos(x, k, m) + CirclePos(y, k, m) == m
    ensures forall k1, k2 ::
      (&& 0 <= k1 < m && 0 <= k2 < m
       && CirclePos(x, k1, m) + CirclePos(y, k1, m) == m
       && CirclePos(x, k2, m) + CirclePos(y, k2, m) == m) ==> k1 == k2
  {
    forall k1, k2 | 0 <= k1 < m && 0 <= k2 < m
      && CirclePos(x, k1, m) + CirclePos(y, k1, m) == m
      && CirclePos(x, k2, m) + CirclePos(y, k2, m) == m
      ensures k1 == k2
    {
      FaceUnique(x, y, m, k1, k2);
    }
    FaceExists(x, y, m);
  }

  lemma FaceExists(x: nat, y: nat, m: nat)
    requires m % 2 == 1 && x <= m && y <= m && x != y
    ensures exists k :: 0 <= k < m && CirclePos(x, k, m) + CirclePos(y, k, m) == m
  {
    if x == 0 {
      assert CirclePos(x, m - y, m) + CirclePos(y, m - y, m) == m;
    } else if y == 0 {
      assert CirclePos(x, m - x, m) + CirclePos(y, m - x, m) == m;
    } else {
      var k := FaceRound(x - 1, y - 1, m);
      assert CirclePos(x, k, m) + CirclePos(y, k, m) == m;
    }
  }

  /** The round in which rotating seats `a` and `b` face each other. */
  lemma FaceRound(a: nat, b: nat, m: nat) returns (k: nat)
    requires m % 2 == 1 && a < m && b < m && a != b
    ensures k < m && Shift(a, k, m) + Shift(b, k, m) == m - 2
  {
    var q := (a + b) / 2;
    var half := (m - 1) / 2;
    assert m == 2 * half + 1;
    if a + b == 2 * q {
      // exactly one of the two wraps round
      k := m - 1 - q;
    } else if a + b + 2 <= m {
      // neither wraps round
      assert a + b == 2 * q + 1;
      k := half - 1 - q;
    } else {
      // both wrap round
      assert a + b == 2 * q + 1;
      k := 3 * half - q;
    }
  }

  /** Two rounds in which the same two seats face each other are the same round, as `m` is odd. */
  lemma FaceUnique(x: nat, y: nat, m: nat, k1: nat, k2: nat)
    requires m % 2 == 1 && x <= m && y <= m && x != y && k1 < m && k2 < m
    requires CirclePos(x, k1, m) + CirclePos(y, k1, m) == m
    requires CirclePos(x, k2, m) + CirclePos(y, k2, m) == m
    ensures k1 == k2
  {
    if x != 0 && y != 0 {
      var a, b := x - 1, y - 1;
      var w1 := (if a + k1 < m then 0 else 1) + (if b + k1 < m then 0 else 1);
      var w2 := (if a + k2 < m then 0 else 1) + (if b + k2 < m then 0 else 1);
      assert a + b + 2 * k1 - w1 * m == m - 2;
      assert a + b + 2 * k2 - w2 * m == m - 2;
      assert 2 * (k1 - k2) == (w1 - w2) * m;
    }
  }

  /**
   * In the single round robin every two players meet in exactly one round:
   * the circle method's promise.
   */
  lemma MeetExactlyOnce<T>(ps: seq<T>, x: nat, y: nat)
    requires Distinct(ps) && x < |ps| && y < |ps| && x != y
    ensures var rs := Schedule(ps, false);
      && (exists k :: 0 <= k < |rs| && Meets(rs[k], ps[x], ps[y]))
      && (forall k1, k2 ::
            (&& 0 <= k1 < |rs| && 0 <= k2 < |rs|
             && Meets(rs[k1], ps[x], ps[y]) && Meets(rs[k2], ps[x], ps[y])) ==> k1 == k2)
  {
    var l := Padded(ps);
    var m := |l| - 1;
    var rs := Schedule(ps, false);
    FaceOnce(x, y, m);
    forall k | 0 <= k < m
      ensures Meets(rs[k], ps[x], ps[y]) <==> CirclePos(x, k, m) + CirclePos(y, k, m) == m
    {
      MeetsInRound(ps, k, x, y);
    }
  }

  /** Players `x` and `y` meet in round `k` exactly when their seats face each other. */
  lemma MeetsInRound<T>(ps: seq<T>, k: nat, x: nat, y: nat)
    requires Distinct(ps) && x < |ps| && y < |ps| && x != y && k < |Padded(ps)| - 1
    ensures var m := |Padded(ps)| - 1;
      Meets(Round(Padded(ps), k), ps[x], ps[y]) <==> CirclePos(x, k, m) + CirclePos(y, k, m) == m
  {
    var l := Padded(ps);
    var m := |l| - 1;
    PaddedDistinct(ps);
    CircleDistinct(l, k);
    SeatOf(ps, k, x);
    SeatOf(ps, k, y);
    var c := Circle(l, k);
    var pu := CirclePos(x, k, m);
    var pv := CirclePos(y, k, m);
    assert ps[x] != ps[y];
    SlotsMeet(c, |c| / 2, ps[x], ps[y], pu, pv);
    HalfSplit(|c|, pu, pv);
  }

  /** In round `k` the player of roster position `x` sits at `CirclePos(x, k)`. */
  lemma SeatOf<T>(ps: seq<T>, k: nat, x: nat)
    requires x < |ps| && k < |Padded(ps)| - 1
    ensures var l := Padded(ps); var m := |l| - 1;
      CirclePos(x, k, m) < |l| && Circle(l, k)[CirclePos(x, k, m)] == Some(ps[x])
  {
    CircleAt(Padded(ps), k, x);
  }

  /** Two different seats of an even table facing each other are on either side of the middle. */
  lemma HalfSplit(n: nat, pu: nat, pv: nat)
    requires n % 2 == 0 && pu != pv
    ensures pu + pv == n - 1 ==> pu < n / 2 || pv < n / 2
  {
  }
}
