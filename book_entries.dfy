/**
 * The entry list of opening_book.py, apart from the chess: stored entries,
 * the stable longest-first sort `_load` ends with, and the prefix search of
 * `lookup`.
 */
module BookEntries {
  import opened Common

  /** One stored opening: `(uci_seq_tuple, eco_str, name_str)`. */
  datatype Entry = Entry(moves: seq<string>, eco: string, name: string)

  /**
   * One row of the CSV reader; a missing column or an empty cell is "",
   * as `row.get(...) or ''` makes it.
   */
  datatype Row = Row(eco: string, name: string, moves: string)

  // ---------------------------------------------------------------- the sort in _load

  /** Every entry is at least as long as the ones after it. */
  predicate LongestFirst(es: seq<Entry>) {
    forall i, j :: 0 <= i < j < |es| ==> |es[i].moves| >= |es[j].moves|
  }

  /** The entries of exactly `n` moves, in their order. */
  function OfLength(es: seq<Entry>, n: nat): (r: seq<Entry>)
    ensures |r| <= |es|
  {
    if es == [] then []
    else (if |es[0].moves| == n then [es[0]] else []) + OfLength(es[1..], n)
  }

  /**
   * `e` placed after every entry of `s` longer than it and before the
   * rest, which is where a stable longest-first sort puts an entry that
   * came first.
   */
  function Insert(e: Entry, s: seq<Entry>): (r: seq<Entry>)
    ensures multiset(r) == multiset(s) + multiset{e}
  {
    if s == [] || |s[0].moves| <= |e.moves| then [e] + s
    else
      assert s == [s[0]] + s[1..];
      [s[0]] + Insert(e, s[1..])
  }

  /**
   * `sort(key=len, reverse=True)`: Python's sort is stable, also when
   * reversed, so entries of equal length keep their file order.
   */
  function SortLongestFirst(es: seq<Entry>): (r: seq<Entry>)
    ensures multiset(r) == multiset(es)
  {
    if es == [] then []
    else
      assert es == [es[0]] + es[1..];
      Insert(es[0], SortLongestFirst(es[1..]))
  }

  /** Every entry `Insert` places after the head of `s` comes from the tail of `s`, or is `e`. */
  lemma InsertFrom(e: Entry, s: seq<Entry>, x: Entry)
    requires x in Insert(e, s)
    ensures x == e || x in s
  {
    assert x in multiset(Insert(e, s));
  }

  lemma {:induction false} InsertSorted(e: Entry, s: seq<Entry>)
    requires LongestFirst(s)
    ensures LongestFirst(Insert(e, s))
  {
    if s == [] || |s[0].moves| <= |e.moves| {
    } else {
      InsertSorted(e, s[1..]);
      var r := Insert(e, s[1..]);
      forall k | 0 <= k < |r| ensures |r[k].moves| <= |s[0].moves| {
        InsertFrom(e, s[1..], r[k]);
      }
      assert Insert(e, s) == [s[0]] + r;
    }
  }

  /** The entries of length `n` in a list with a given first entry. */
  function Head(e: Entry, n: nat): seq<Entry> {
    if |e.moves| == n then [e] else []
  }

  lemma OfLengthCons(e: Entry, s: seq<Entry>, n: nat)
    ensures OfLength([e] + s, n) == Head(e, n) + OfLength(s, n)
  {
    assert ([e] + s)[0] == e && ([e] + s)[1..] == s;
  }

  lemma {:induction false} InsertStable(e: Entry, s: seq<Entry>, n: nat)
    ensures OfLength(Insert(e, s), n) == OfLength([e] + s, n)
  {
    if s == [] || |s[0].moves| <= |e.moves| {
    } else {
      var a, t := s[0], s[1..];
      assert s == [a] + t;
      assert Insert(e, s) == [a] + Insert(e, t);
      InsertStable(e, t, n);
      OfLengthCons(a, Insert(e, t), n);
      OfLengthCons(e, t, n);
      OfLengthCons(e, s, n);
      OfLengthCons(a, t, n);
      // `a` is longer than `e`, so at most one of them has length `n`
      SwapEmpty(Head(a, n), Head(e, n), OfLength(t, n));
    }
  }

  /** Two lists of which one is empty can be put before a third in either order. */
  lemma SwapEmpty(x: seq<Entry>, y: seq<Entry>, rest: seq<Entry>)
    requires x == [] || y == []
    ensures x + (y + rest) == y + (x + rest)
  {
    if x == [] {
      assert [] + (y + rest) == y + rest;
      assert y + ([] + rest) == y + rest;
    } else {
      assert x + ([] + rest) == x + rest;
      assert [] + (x + rest) == x + rest;
    }
  }

  /** The sort puts longer entries first. */
  lemma {:induction false} SortSorted(es: seq<Entry>)
    ensures LongestFirst(SortLongestFirst(es))
  {
    if es != [] {
      SortSorted(es[1..]);
      InsertSorted(es[0], SortLongestFirst(es[1..]));
    }
  }

  /** The sort keeps entries of equal length in their original order. */
  lemma {:induction false} SortStable(es: seq<Entry>, n: nat)
    ensures OfLength(SortLongestFirst(es), n) == OfLength(es, n)
  {
    if es != [] {
      var s := SortLongestFirst(es[1..]);
      SortStable(es[1..], n);
      InsertStable(es[0], s, n);
      OfLengthCons(es[0], s, n);
    }
  }

  /** Concatenates `f` over the rows, in order. */
  function Gather(rows: seq<Row>, f: Row -> seq<Entry>): seq<Entry> {
    if rows == [] then [] else Gather(rows[..|rows| - 1], f) + f(rows[|rows| - 1])
  }

  /** Every gathered entry is the single entry of one row. */
  lemma {:induction false} GatherMember(rows: seq<Row>, f: Row -> seq<Entry>, e: Entry)
    requires forall row :: |f(row)| <= 1
    requires e in Gather(rows, f)
    ensures exists i :: 0 <= i < |rows| && f(rows[i]) == [e]
    decreases |rows|
  {
    var init := rows[..|rows| - 1];
    var last := rows[|rows| - 1];
    if e in Gather(init, f) {
      GatherMember(init, f, e);
      var i :| 0 <= i < |init| && f(init[i]) == [e];
      assert rows[i] == init[i];
    } else {
      assert e in f(last);
    }
  }

  /** Nothing is gathered exactly when every row yields nothing. */
  lemma {:induction false} GatherEmpty(rows: seq<Row>, f: Row -> seq<Entry>)
    ensures Gather(rows, f) == [] <==> forall i :: 0 <= i < |rows| ==> f(rows[i]) == []
    decreases |rows|
  {
    if rows != [] {
      var init := rows[..|rows| - 1];
      GatherEmpty(init, f);
      assert forall i :: 0 <= i < |init| ==> init[i] == rows[i];
    }
  }

  /** Gathering one more row appends that row's entries. */
  lemma GatherStep(rows: seq<Row>, f: Row -> seq<Entry>, i: nat)
    requires i < |rows|
    ensures Gather(rows[..i + 1], f) == Gather(rows[..i], f) + f(rows[i])
  {
    assert rows[..i + 1][..i] == rows[..i];
  }

  // ---------------------------------------------------------------- lookup

  /** `len(played) >= n and played[:n] == seq`. */
  predicate PrefixOf(s: seq<string>, played: seq<string>) {
    |played| >= |s| && played[..|s|] == s
  }

  /** The index of the first entry whose moves begin `played`. */
  function FirstPrefix(es: seq<Entry>, played: seq<string>): (r: Option<nat>)
    ensures r.None? <==> forall i :: 0 <= i < |es| ==> !PrefixOf(es[i].moves, played)
    ensures r.Some? ==> (r.value < |es| && PrefixOf(es[r.value].moves, played)
      && forall j :: 0 <= j < r.value ==> !PrefixOf(es[j].moves, played))
  {
    if es == [] then None
    else if PrefixOf(es[0].moves, played) then Some(0)
    else match FirstPrefix(es[1..], played)
      case None => None
      case Some(i) => Some(i + 1)
  }

  /** Among longest-first entries, the first match is a longest match. */
  lemma FirstPrefixLongest(es: seq<Entry>, played: seq<string>, j: int)
    requires LongestFirst(es) && FirstPrefix(es, played).Some?
    requires 0 <= j < |es| && PrefixOf(es[j].moves, played)
    ensures |es[j].moves| <= |es[FirstPrefix(es, played).value].moves|
  {
  }

  /**
   * In a longest-first list, the first match is also the first match
   * among the entries of its own length.
   */
  lemma {:induction false} FirstPrefixOfLength(es: seq<Entry>, played: seq<string>)
    requires LongestFirst(es) && FirstPrefix(es, played).Some?
    ensures var e := es[FirstPrefix(es, played).value];
      var k := FirstPrefix(OfLength(es, |e.moves|), played);
      k.Some? && OfLength(es, |e.moves|)[k.value] == e
  {
    var i := FirstPrefix(es, played).value;
    if i == 0 {
      assert OfLength(es, |es[0].moves|) == [es[0]] + OfLength(es[1..], |es[0].moves|);
    } else {
      var n := |es[i].moves|;
      assert FirstPrefix(es[1..], played).Some? && FirstPrefix(es[1..], played).value == i - 1;
      assert LongestFirst(es[1..]);
      FirstPrefixOfLength(es[1..], played);
      assert es[1..][i - 1] == es[i];
      if |es[0].moves| == n {
        var t := OfLength(es, n);
        assert t == [es[0]] + OfLength(es[1..], n);
        assert !PrefixOf(es[0].moves, played);
      } else {
        assert OfLength(es, n) == OfLength(es[1..], n);
      }
    }
  }

}
