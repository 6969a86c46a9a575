/**
 * The text of START_FEN (constants.py) put together from its ranks and
 * fields with `join`, step by step.
 */
module FenText {
  import opened PyStr

  /** Joining two parts puts one separator between them. */
  lemma JoinPair(sep: string, rs: seq<string>)
    requires |rs| == 2
    ensures Join(sep, rs) == rs[0] + sep + rs[1]
  {
    assert rs[1..] == [rs[1]];
  }

  /** Joining four parts, two and two. */
  lemma JoinFour(sep: string, rs: seq<string>)
    requires |rs| == 4
    ensures Join(sep, rs) == (rs[0] + sep + rs[1]) + sep + (rs[2] + sep + rs[3])
  {
    assert rs[..2] + rs[2..] == rs;
    JoinAppend(sep, rs[..2], rs[2..]);
    JoinPair(sep, rs[..2]);
    JoinPair(sep, rs[2..]);
  }

  /** The first four ranks of the starting placement, Black's side. */
  lemma JoinBlackHalf(rs: seq<string>)
    requires |rs| == 4 && rs[0] == "rnbqkbnr" && rs[1] == "pppppppp" && rs[2] == "8" && rs[3] == "8"
    ensures Join("/", rs) == "rnbqkbnr/pppppppp/8/8"
  {
    JoinFour("/", rs);
    BlackHalfText();
  }

  lemma BlackHalfText()
    ensures ("rnbqkbnr" + "/" + "pppppppp") + "/" + ("8" + "/" + "8") == "rnbqkbnr/pppppppp/8/8"
  {
  }

  /** The last four ranks of the starting placement, White's side. */
  lemma JoinWhiteHalf(rs: seq<string>)
    requires |rs| == 4 && rs[0] == "8" && rs[1] == "8" && rs[2] == "PPPPPPPP" && rs[3] == "RNBQKBNR"
    ensures Join("/", rs) == "8/8/PPPPPPPP/RNBQKBNR"
  {
    JoinFour("/", rs);
    WhiteHalfText();
  }

  lemma WhiteHalfText()
    ensures ("8" + "/" + "8") + "/" + ("PPPPPPPP" + "/" + "RNBQKBNR") == "8/8/PPPPPPPP/RNBQKBNR"
  {
  }

  /** The eight rank texts of the starting position joined with '/'. */
  lemma JoinStartRanks(rs: seq<string>)
    requires |rs| == 8 && rs[0] == "rnbqkbnr" && rs[1] == "pppppppp" && rs[2] == "8" && rs[3] == "8"
    requires rs[4] == "8" && rs[5] == "8" && rs[6] == "PPPPPPPP" && rs[7] == "RNBQKBNR"
    ensures Join("/", rs) == "rnbqkbnr/pppppppp/8/8/8/8/PPPPPPPP/RNBQKBNR"
  {
    assert rs[..4] + rs[4..] == rs;
    JoinAppend("/", rs[..4], rs[4..]);
    JoinBlackHalf(rs[..4]);
    JoinWhiteHalf(rs[4..]);
    PlacementHalves();
  }

  lemma PlacementHalves()
    ensures "rnbqkbnr/pppppppp/8/8" + "/" + "8/8/PPPPPPPP/RNBQKBNR" == "rnbqkbnr/pppppppp/8/8/8/8/PPPPPPPP/RNBQKBNR"
  {
  }

  /** The six fields of the starting position joined with spaces. */
  lemma JoinStartFields(fs: seq<string>)
    requires |fs| == 6 && fs[0] == "rnbqkbnr/pppppppp/8/8/8/8/PPPPPPPP/RNBQKBNR"
    requires fs[1] == "w" && fs[2] == "KQkq" && fs[3] == "-" && fs[4] == "0" && fs[5] == "1"
    ensures Join(" ", fs) == "rnbqkbnr/pppppppp/8/8/8/8/PPPPPPPP/RNBQKBNR w KQkq - 0 1"
  {
    assert fs[1..][1..] == fs[2..] && fs[2..][1..] == fs[3..] && fs[3..][1..] == fs[4..] && fs[4..][1..] == fs[5..];
    assert Join(" ", fs[4..]) == "0 1";
    assert Join(" ", fs[3..]) == "- 0 1";
    assert Join(" ", fs[2..]) == "KQkq - 0 1";
    assert Join(" ", fs[1..]) == "w KQkq - 0 1";
  }
}
