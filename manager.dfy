/**
 * `TournamentManager` of tournament.py: the list of every tournament of the
 * session, newest first, one entry per tournament id.
 */
module TournamentManagement {
  import opened Common
  import opened Tournaments

  /** One entry of the list (`_make_entry`); the creation time is not modelled. */
  datatype Entry = Entry(id: string, name: string, format: string, players: nat, rounds: int, obj: Tournament)

  /** `_make_entry(t)`. */
  function MakeEntry(t: Tournament): Entry {
    Entry(t.tournamentId, t.name, t.formatText, |t.playerList|, t.rounds, t)
  }

  /** The ids of the entries, in order. */
  function Ids(entries: seq<Entry>): (r: seq<string>)
    ensures |r| == |entries| && forall i :: 0 <= i < |entries| ==> r[i] == entries[i].id
  {
    if entries == [] then [] else [entries[0].id] + Ids(entries[1..])
  }

  /** The position of the first entry with this id, or the length when there is none. */
  function FindId(entries: seq<Entry>, id: string): (i: nat)
    ensures i <= |entries|
    ensures i < |entries| ==> entries[i].id == id
    ensures forall j :: 0 <= j < i ==> entries[j].id != id
  {
    if entries == [] then 0
    else if entries[0].id == id then 0
    else 1 + FindId(entries[1..], id)
  }

  /**
   * What `register` makes of the list: the first entry with the same id is
   * replaced in place, and a new id goes to the front.
   */
  function Upserted(entries: seq<Entry>, e: Entry): (r: seq<Entry>) {
    var i := FindId(entries, e.id);
    if i < |entries| then entries[i := e] else [e] + entries
  }

  /**
   * After `register` the entry is in the list, the list grows by one exactly
   * when the id is new, and every other entry is kept: an entry of the old
   * list with another id is still there, and an entry of the new list other
   * than `e` was there before.
   */
  lemma UpsertedContents(entries: seq<Entry>, e: Entry)
    ensures var r := Upserted(entries, e);
      && e in r
      && |r| == |entries| + (if e.id in Ids(entries) then 0 else 1)
      && (forall x :: x in entries && x.id != e.id ==> x in r)
      && (forall x :: x in r && x != e ==> x in entries)
  {
    var i := FindId(entries, e.id);
    var r := Upserted(entries, e);
    FindIdFound(entries, e.id);
    if i < |entries| {
      assert r[i] == e;
      forall x | x in entries && x.id != e.id
        ensures x in r
      {
        var k :| 0 <= k < |entries| && entries[k] == x;
        assert r[k] == x;
      }
    }
  }

  /** A new id goes to the front; a known one keeps its place. */
  lemma UpsertedPlace(entries: seq<Entry>, e: Entry)
    ensures var r := Upserted(entries, e);
      && (e.id !in Ids(entries) ==> r[0] == e && r[1..] == entries)
      && (e.id in Ids(entries) ==> FindId(entries, e.id) < |entries| && r[FindId(entries, e.id)] == e)
  {
    FindIdFound(entries, e.id);
  }

  /** `FindId` stops inside the list exactly when the id is there. */
  lemma FindIdFound(entries: seq<Entry>, id: string)
    ensures FindId(entries, id) < |entries| <==> id in Ids(entries)
  {
    var i := FindId(entries, id);
    if id in Ids(entries) {
      var k :| 0 <= k < |entries| && Ids(entries)[k] == id;
      assert i <= k;
    }
  }

  /** Registering keeps the ids distinct, so every tournament has one entry. */
  lemma UpsertedDistinct(entries: seq<Entry>, e: Entry)
    requires Distinct(Ids(entries))
    ensures Distinct(Ids(Upserted(entries, e)))
  {
    var i := FindId(entries, e.id);
    var r := Upserted(entries, e);
    if i < |entries| {
      forall a, b | 0 <= a < b < |r|
        ensures Ids(r)[a] != Ids(r)[b]
      {
        if a == i || b == i {
          assert entries[i].id == e.id;
        }
      }
    } else {
      forall a, b | 0 <= a < b < |r|
        ensures Ids(r)[a] != Ids(r)[b]
      {
        if a == 0 {
          assert r[b] == entries[b - 1];
          assert entries[b - 1].id in Ids(entries);
        } else {
          assert r[a] == entries[a - 1] && r[b] == entries[b - 1];
        }
      }
    }
  }

  /** Registering the same tournament again changes nothing. */
  lemma UpsertedIdempotent(entries: seq<Entry>, e: Entry)
    ensures Upserted(Upserted(entries, e), e) == Upserted(entries, e)
  {
    var i := FindId(entries, e.id);
    var r := Upserted(entries, e);
    if i < |entries| {
      FindIdAt(r, e.id, i);
    } else {
      FindIdAt(r, e.id, 0);
    }
  }

  class Manager {
    /** `_entries`, newest first. */
    var entries: seq<Entry>

    /** `TournamentManager()`: no tournaments yet. */
    constructor()
      ensures entries == []
    {
      entries := [];
    }

    /** `register(tournament)` (and `update`, which calls it): the scan of `for ... else`. */
    method Register(t: Tournament)
      modifies this
      ensures entries == Upserted(old(entries), MakeEntry(t))
      ensures Distinct(Ids(old(entries))) ==> Distinct(Ids(entries))
    {
      if Distinct(Ids(entries)) {
        UpsertedDistinct(entries, MakeEntry(t));
      }
      var entry := MakeEntry(t);
      var i := 0;
      while i < |entries|
        invariant 0 <= i <= |entries| && entries == old(entries)
        invariant forall j :: 0 <= j < i ==> entries[j].id != t.tournamentId
      {
        if entries[i].id == t.tournamentId {
          assert FindId(entries, t.tournamentId) == i by {
            FindIdAt(entries, t.tournamentId, i);
          }
          entries := entries[i := entry];
          return;
        }
        i := i + 1;
      }
      FindIdAt(entries, t.tournamentId, i);
      entries := [entry] + entries;
    }

    /** `get_all`: a copy of the entries, newest first. */
    function GetAll(): (r: seq<Entry>)
      reads this
    {
      entries
    }
  }

  /** `FindId` is the first position whose id matches, or the length when none does. */
  lemma {:induction false} FindIdAt(entries: seq<Entry>, id: string, i: nat)
    requires i <= |entries| && forall j :: 0 <= j < i ==> entries[j].id != id
    requires i < |entries| ==> entries[i].id == id
    ensures FindId(entries, id) == i
  {
    if entries != [] && i > 0 {
      FindIdAt(entries[1..], id, i - 1);
    }
  }
}
