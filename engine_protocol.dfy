// The text side of the UCI conversation with an engine process (engine.py):
// reading `info` lines, the `bestmove` reply, the evaluation scores and the
// handshake wait. The process, its pipes and the clock are not modelled: the
// lines the engine printed before the deadline are given as a sequence.

module EngineProtocol {
  import opened Common
  import opened PyStr

  // ---------------------------------------------------------------- info lines

  datatype ScoreKind = Cp | Mate

  /** A `score` entry: `score` and `score_type` are always written together. */
  datatype Score = Score(kind: ScoreKind, value: int)

  /** The dictionary `_parse_info` builds: a field is `None` when its key is absent. */
  datatype Info = Info(
    depth: Option<int>,
    score: Option<Score>,
    nodes: Option<int>,
    nps: Option<int>,
    pv: Option<seq<string>>)

  const NoInfo := Info(None, None, None, None, None)

  /** The keys whose value is a single integer token. */
  predicate IsIntKey(k: string) {
    k == "depth" || k == "nodes" || k == "nps"
  }

  function IntField(r: Info, k: string): Option<int>
    requires IsIntKey(k)
  {
    if k == "depth" then r.depth else if k == "nodes" then r.nodes else r.nps
  }

  function SetIntField(r: Info, k: string, v: int): (r': Info)
    requires IsIntKey(k)
    ensures IntField(r', k) == Some(v)
    ensures r'.score == r.score && r'.pv == r.pv
    ensures forall k' :: IsIntKey(k') && k' != k ==> IntField(r', k') == IntField(r, k')
  {
    if k == "depth" then r.(depth := Some(v))
    else if k == "nodes" then r.(nodes := Some(v))
    else r.(nps := Some(v))
  }

  /** The score kinds that are recorded; `lowerbound`, `upperbound` and the rest are not. */
  function KindOf(t: string): (r: Option<ScoreKind>)
    ensures r == Some(Cp) <==> t == "cp"
    ensures r == Some(Mate) <==> t == "mate"
  {
    if t == "cp" then Some(Cp) else if t == "mate" then Some(Mate) else None
  }

  /** At most the first five tokens of `ts`: the principal variation kept. */
  function Take5(ts: seq<string>): (r: seq<string>)
    ensures |r| <= 5 && |r| <= |ts| && r == ts[..|r|]
    ensures |ts| <= 5 ==> r == ts
  {
    if |ts| <= 5 then ts else ts[..5]
  }

  /**
   * What `_parse_info` makes of the tokens `ts` still to read, starting from the
   * entries in `acc`. An integer key followed by a non-integer, a `score` whose
   * kind is not recorded or whose value is not an integer, and any unknown token
   * move on by one token only, so the rejected value is read as a key in turn.
   */
  function ParseTokens(ts: seq<string>, acc: Info): (r: Info)
    ensures r.pv != acc.pv ==> r.pv.Some? && |r.pv.value| <= 5
    decreases |ts|
  {
    if ts == [] then acc
    else if IsIntKey(ts[0]) && |ts| > 1 && ParseInt(ts[1]).Some? then
      ParseTokens(ts[2..], SetIntField(acc, ts[0], ParseInt(ts[1]).value))
    else if ts[0] == "score" && |ts| > 2 && KindOf(ts[1]).Some? && ParseInt(ts[2]).Some? then
      ParseTokens(ts[3..], acc.(score := Some(Score(KindOf(ts[1]).value, ParseInt(ts[2]).value))))
    else if ts[0] == "pv" then
      acc.(pv := Some(Take5(ts[1..])))
    else
      ParseTokens(ts[1..], acc)
  }

  /** The tokens of an `info` line after its first word. */
  function InfoTokens(line: string): seq<string> {
    var ws := Split(line);
    if ws == [] then [] else ws[1..]
  }

  function InfoOf(line: string): Info {
    ParseTokens(InfoTokens(line), NoInfo)
  }

  /**
   * `_parse_info`: a loop whose index moves forward by one, two or three
   * tokens per round, or stops at `pv`, so it always ends.
   */
  method ParseInfo(line: string) returns (info: Info)
    ensures info == InfoOf(line)
  {
    var tokens := InfoTokens(line);
    info := NoInfo;
    var i := 0;
    while i < |tokens|
      invariant 0 <= i <= |tokens|
      invariant ParseTokens(tokens[i..], info) == InfoOf(line)
      decreases |tokens| - i
    {
      var t := tokens[i];
      assert tokens[i..][0] == t;
      if IsIntKey(t) && i + 1 < |tokens| && ParseInt(tokens[i + 1]).Some? {
        assert tokens[i..][2..] == tokens[i + 2..];
        info := SetIntField(info, t, ParseInt(tokens[i + 1]).value);
        i := i + 2;
      } else if t == "score" && i + 2 < |tokens| && KindOf(tokens[i + 1]).Some? && ParseInt(tokens[i + 2]).Some? {
        assert tokens[i..][3..] == tokens[i + 3..];
        info := info.(score := Some(Score(KindOf(tokens[i + 1]).value, ParseInt(tokens[i + 2]).value)));
        i := i + 3;
      } else if t == "pv" {
        assert tokens[i..][1..] == tokens[i + 1..];
        info := info.(pv := Some(Take5(tokens[i + 1..])));
        return;
      } else {
        assert tokens[i..][1..] == tokens[i + 1..];
        i := i + 1;
      }
    }
  }

  /** `ts` holds the key `k` followed by a token that reads as the integer `v`. */
  predicate HasIntEntry(ts: seq<string>, k: string, v: Option<int>) {
    v.Some? && exists j :: 0 <= j < |ts| - 1 && ts[j] == k && ParseInt(ts[j + 1]) == v
  }

  /**
   * Every integer field the parser fills comes from its key followed by that
   * integer somewhere in the tokens; otherwise the field keeps its old value.
   */
  lemma {:induction false} IntFieldSource(ts: seq<string>, acc: Info, k: string)
    requires IsIntKey(k)
    ensures var v := IntField(ParseTokens(ts, acc), k);
      v == IntField(acc, k) || HasIntEntry(ts, k, v)
    decreases |ts|
  {
    var v := IntField(ParseTokens(ts, acc), k);
    if ts == [] {
    } else if IsIntKey(ts[0]) && |ts| > 1 && ParseInt(ts[1]).Some? {
      var acc' := SetIntField(acc, ts[0], ParseInt(ts[1]).value);
      IntFieldSource(ts[2..], acc', k);
      if HasIntEntry(ts[2..], k, v) {
        ShiftSource(ts, 2, k, v);
      } else if ts[0] == k {
        assert HasIntEntry(ts, k, v) by { assert ts[0] == k && ParseInt(ts[1]) == v; }
      }
    } else if ts[0] == "score" && |ts| > 2 && KindOf(ts[1]).Some? && ParseInt(ts[2]).Some? {
      var acc' := acc.(score := Some(Score(KindOf(ts[1]).value, ParseInt(ts[2]).value)));
      IntFieldSource(ts[3..], acc', k);
      if HasIntEntry(ts[3..], k, v) {
        ShiftSource(ts, 3, k, v);
      }
    } else if ts[0] == "pv" {
    } else {
      IntFieldSource(ts[1..], acc, k);
      if HasIntEntry(ts[1..], k, v) {
        ShiftSource(ts, 1, k, v);
      }
    }
  }

  /** A key/value pair found in a suffix of `ts` is found in `ts`. */
  lemma ShiftSource(ts: seq<string>, d: nat, k: string, v: Option<int>)
    requires d <= |ts| && HasIntEntry(ts[d..], k, v)
    ensures HasIntEntry(ts, k, v)
  {
    var j :| 0 <= j < |ts[d..]| - 1 && ts[d..][j] == k && ParseInt(ts[d..][j + 1]) == v;
    assert ts[j + d] == k && ts[j + d + 1] == ts[d..][j + 1];
  }

  /** `ts` holds `score`, then the kind of `s`, then a token that reads as its value. */
  predicate HasScoreEntry(ts: seq<string>, s: Option<Score>) {
    && s.Some?
    && exists j ::
         && 0 <= j < |ts| - 2
         && ts[j] == "score"
         && KindOf(ts[j + 1]) == Some(s.value.kind)
         && ParseInt(ts[j + 2]) == Some(s.value.value)
  }

  /**
   * A recorded score comes from `score`, a kind that is `cp` or `mate`, and an
   * integer, in that order; otherwise the score keeps its old value.
   */
  lemma {:induction false} ScoreSource(ts: seq<string>, acc: Info)
    ensures var s := ParseTokens(ts, acc).score;
      s == acc.score || HasScoreEntry(ts, s)
    decreases |ts|
  {
    var s := ParseTokens(ts, acc).score;
    if ts == [] {
    } else if IsIntKey(ts[0]) && |ts| > 1 && ParseInt(ts[1]).Some? {
      ScoreSource(ts[2..], SetIntField(acc, ts[0], ParseInt(ts[1]).value));
      if HasScoreEntry(ts[2..], s) {
        ShiftScore(ts, 2, s);
      }
    } else if ts[0] == "score" && |ts| > 2 && KindOf(ts[1]).Some? && ParseInt(ts[2]).Some? {
      var acc' := acc.(score := Some(Score(KindOf(ts[1]).value, ParseInt(ts[2]).value)));
      ScoreSource(ts[3..], acc');
      if HasScoreEntry(ts[3..], s) {
        ShiftScore(ts, 3, s);
      } else {
        assert HasScoreEntry(ts, s) by { assert ts[0] == "score"; }
      }
    } else if ts[0] == "pv" {
    } else {
      ScoreSource(ts[1..], acc);
      if HasScoreEntry(ts[1..], s) {
        ShiftScore(ts, 1, s);
      }
    }
  }

  lemma ShiftScore(ts: seq<string>, d: nat, s: Option<Score>)
    requires d <= |ts| && HasScoreEntry(ts[d..], s)
    ensures HasScoreEntry(ts, s)
  {
    var j :| 0 <= j < |ts[d..]| - 2 && ts[d..][j] == "score"
      && KindOf(ts[d..][j + 1]) == Some(s.value.kind) && ParseInt(ts[d..][j + 2]) == Some(s.value.value);
    assert ts[j + d] == "score" && ts[j + d + 1] == ts[d..][j + 1] && ts[j + d + 2] == ts[d..][j + 2];
  }

  /**
   * A non-integer value after an integer key is not consumed: parsing goes on
   * from the value itself, here read as the key `nodes`.
   */
  lemma MalformedValueSkipped(n: int)
    ensures ParseTokens(["depth", "nodes", IntToString(n)], NoInfo)
         == NoInfo.(nodes := Some(n))
  {
    var ts := ["depth", "nodes", IntToString(n)];
    assert ParseInt("nodes") == None by {
      assert !DigitGroups("nodes") by { assert !IsDigit("nodes"[0]); }
    }
    ParseIntToString(n);
    assert ts[1..] == ["nodes", IntToString(n)];
    assert ts[1..][2..] == [];
    assert ParseTokens(ts[1..], NoInfo) == NoInfo.(nodes := Some(n));
    assert ts[0] != "score" && ts[0] != "pv";
  }

  // ---------------------------------------------------------------- writing info lines back

  /** The tokens an engine prints for the entries of `x`, `pv` last. */
  function Render(x: Info): seq<string> {
    IntPart("depth", x.depth) + ScorePart(x.score) + IntPart("nodes", x.nodes)
    + IntPart("nps", x.nps) + PvPart(x.pv)
  }

  function IntPart(k: string, v: Option<int>): seq<string> {
    if v.Some? then [k, IntToString(v.value)] else []
  }

  function ScorePart(s: Option<Score>): seq<string> {
    if s.Some? then ["score", KindText(s.value.kind), IntToString(s.value.value)] else []
  }

  function PvPart(pv: Option<seq<string>>): seq<string> {
    if pv.Some? then ["pv"] + pv.value else []
  }

  function KindText(k: ScoreKind): (t: string)
    ensures KindOf(t) == Some(k)
  {
    match k
    case Cp => "cp"
    case Mate => "mate"
  }

  /** An integer entry in front of `rest` is read back exactly. */
  lemma IntPartRead(k: string, v: Option<int>, rest: seq<string>, acc: Info)
    requires IsIntKey(k)
    ensures ParseTokens(IntPart(k, v) + rest, acc)
         == ParseTokens(rest, if v.Some? then SetIntField(acc, k, v.value) else acc)
  {
    if v.Some? {
      ParseIntToString(v.value);
      assert (IntPart(k, v) + rest)[2..] == rest;
    } else {
      assert IntPart(k, v) + rest == rest;
    }
  }

  lemma ScorePartRead(s: Option<Score>, rest: seq<string>, acc: Info)
    ensures ParseTokens(ScorePart(s) + rest, acc)
         == ParseTokens(rest, if s.Some? then acc.(score := s) else acc)
  {
    if s.Some? {
      ParseIntToString(s.value.value);
      var ts := ScorePart(s) + rest;
      assert ts[0] == "score" && ts[1] == KindText(s.value.kind) && ts[2] == IntToString(s.value.value);
      assert ts[3..] == rest;
    } else {
      assert ScorePart(s) + rest == rest;
    }
  }

  lemma PvPartRead(pv: Option<seq<string>>, acc: Info)
    ensures ParseTokens(PvPart(pv), acc)
         == if pv.Some? then acc.(pv := Some(Take5(pv.value))) else acc
  {
    if pv.Some? {
      assert PvPart(pv)[1..] == pv.value;
    }
  }

  /**
   * Reading what an engine prints gives the entries back, except that the
   * principal variation is cut to its first five moves.
   */
  lemma RenderRoundTrip(x: Info)
    ensures ParseTokens(Render(x), NoInfo) == x.(pv := if x.pv.Some? then Some(Take5(x.pv.value)) else None)
  {
    var p4 := PvPart(x.pv);
    var p3 := IntPart("nps", x.nps) + p4;
    var p2 := IntPart("nodes", x.nodes) + p3;
    var p1 := ScorePart(x.score) + p2;
    var p0 := IntPart("depth", x.depth) + p1;
    assert Render(x) == p0;
    var a0 := NoInfo.(depth := x.depth);
    var a1 := a0.(score := x.score);
    var a2 := a1.(nodes := x.nodes);
    var a3 := a2.(nps := x.nps);
    IntPartRead("depth", x.depth, p1, NoInfo);
    ScorePartRead(x.score, p2, a0);
    IntPartRead("nodes", x.nodes, p3, a1);
    IntPartRead("nps", x.nps, p4, a2);
    PvPartRead(x.pv, a3);
  }

  /** The same, for a whole `info` line as the engine prints it. */
  lemma InfoLineRoundTrip(x: Info)
    requires x.pv.Some? ==> forall i :: 0 <= i < |x.pv.value| ==> x.pv.value[i] != [] && NoSpace(x.pv.value[i])
    ensures InfoOf(Join(" ", ["info"] + Render(x)))
         == x.(pv := if x.pv.Some? then Some(Take5(x.pv.value)) else None)
  {
    var ts := ["info"] + Render(x);
    RenderTokensPlain(x);
    assert forall i :: 1 <= i < |ts| ==> ts[i] == Render(x)[i - 1];
    SplitJoin(ts);
    assert ts[1..] == Render(x);
    RenderRoundTrip(x);
  }

  lemma RenderTokensPlain(x: Info)
    requires x.pv.Some? ==> forall i :: 0 <= i < |x.pv.value| ==> x.pv.value[i] != [] && NoSpace(x.pv.value[i])
    ensures forall i :: 0 <= i < |Render(x)| ==> Render(x)[i] != [] && NoSpace(Render(x)[i])
  {
    var ks := ["depth", "score", "nodes", "nps", "pv", "cp", "mate"];
    assert forall i :: 0 <= i < |ks| ==> ks[i] != [] && NoSpace(ks[i]);
    var a, b, c, d, e := IntPart("depth", x.depth), ScorePart(x.score), IntPart("nodes", x.nodes), IntPart("nps", x.nps), PvPart(x.pv);
    IntPartWords(ks[0], x.depth);
    ScorePartWords(x.score);
    IntPartWords(ks[2], x.nodes);
    IntPartWords(ks[3], x.nps);
    if x.pv.Some? {
      WordsAppend([ks[4]], x.pv.value);
    }
    WordsAppend(a, b);
    WordsAppend(a + b, c);
    WordsAppend(a + b + c, d);
    WordsAppend(a + b + c + d, e);
  }

  lemma IntPartWords(k: string, v: Option<int>)
    requires k != [] && NoSpace(k)
    ensures Words(IntPart(k, v))
  {
  }

  lemma ScorePartWords(s: Option<Score>)
    ensures Words(ScorePart(s))
  {
    if s.Some? {
      var t := KindText(s.value.kind);
      assert t == "cp" || t == "mate";
      assert NoSpace("score") && NoSpace("cp") && NoSpace("mate");
    }
  }

  /** Every token is a non-empty word without spaces. */
  predicate Words(ts: seq<string>) {
    forall i :: 0 <= i < |ts| ==> ts[i] != [] && NoSpace(ts[i])
  }

  lemma WordsAppend(a: seq<string>, b: seq<string>)
    requires Words(a) && Words(b)
    ensures Words(a + b)
  {
    assert forall i :: |a| <= i < |a + b| ==> (a + b)[i] == b[i - |a|];
  }

  // ---------------------------------------------------------------- bestmove

  /** The replies that mean "no move". */
  predicate IsNullMove(m: string) {
    m == "(none)" || m == "null" || m == "0000"
  }

  /** The move named by a line starting with `bestmove`, if it names one. */
  function BestMoveOf(line: string): (r: Option<string>)
    ensures r.Some? <==> |Split(line)| > 1 && !IsNullMove(Split(line)[1])
    ensures r.Some? ==> r.value == Split(line)[1] && r.value != [] && NoSpace(r.value)
  {
    var parts := Split(line);
    if |parts| > 1 && !IsNullMove(parts[1]) then Some(parts[1]) else None
  }

  /** The reply `bestmove m`, with or without a `ponder` part, gives `m` back. */
  lemma BestMoveReply(m: string, rest: seq<string>)
    requires m != [] && NoSpace(m) && !IsNullMove(m)
    requires forall i :: 0 <= i < |rest| ==> rest[i] != [] && NoSpace(rest[i])
    ensures BestMoveOf(Join(" ", ["bestmove", m] + rest)) == Some(m)
  {
    var ts := ["bestmove", m] + rest;
    BestMoveWords(m, rest);
    SplitJoin(ts);
    assert ts[1] == m;
  }

  /** The words of a `bestmove` reply are words `split` finds again. */
  lemma BestMoveWords(m: string, rest: seq<string>)
    requires m != [] && NoSpace(m)
    requires forall i :: 0 <= i < |rest| ==> rest[i] != [] && NoSpace(rest[i])
    ensures var ts := ["bestmove", m] + rest; forall i :: 0 <= i < |ts| ==> ts[i] != [] && NoSpace(ts[i])
  {
    var ts := ["bestmove", m] + rest;
    forall i | 0 <= i < |ts|
      ensures ts[i] != [] && NoSpace(ts[i])
    {
      if i == 0 { BestmoveWord(); } else if i >= 2 { assert ts[i] == rest[i - 2]; }
    }
  }

  lemma BestmoveWord()
    ensures "bestmove" != [] && NoSpace("bestmove")
  {
  }

  /** A reply without a move, or with one of the null moves, gives nothing. */
  lemma NullBestMove(m: string)
    requires m == "" || IsNullMove(m)
    ensures BestMoveOf(Join(" ", ["bestmove"] + (if m == "" then [] else [m]))) == None
  {
    var ts := ["bestmove"] + (if m == "" then [] else [m]);
    BestmoveWord();
    assert m != "" ==> NoSpace(m);
    assert forall i :: 0 <= i < |ts| ==> ts[i] != [] && NoSpace(ts[i]);
    SplitJoin(ts);
  }

  // ---------------------------------------------------------------- reading a search

  /** `dict.update`: the entries present in `b` replace those of `a`. */
  function Merge(a: Info, b: Info): (r: Info)
    ensures r.score == (if b.score.Some? then b.score else a.score)
    ensures r.pv == (if b.pv.Some? then b.pv else a.pv)
    ensures forall k :: IsIntKey(k) ==> IntField(r, k) == (if IntField(b, k).Some? then IntField(b, k) else IntField(a, k))
  {
    Info(
      if b.depth.Some? then b.depth else a.depth,
      if b.score.Some? then b.score else a.score,
      if b.nodes.Some? then b.nodes else a.nodes,
      if b.nps.Some? then b.nps else a.nps,
      if b.pv.Some? then b.pv else a.pv)
  }

  predicate IsInfoLine(line: string) { StartsWith(line, "info ") }
  predicate IsBestLine(line: string) { StartsWith(line, "bestmove") }

  /** The position of the first `bestmove` line, or the number of lines when there is none. */
  function FirstBest(lines: seq<string>): (k: nat)
    ensures k <= |lines|
    ensures k < |lines| ==> IsBestLine(lines[k])
    ensures forall j :: 0 <= j < k ==> !IsBestLine(lines[j])
  {
    if lines == [] then 0
    else if IsBestLine(lines[0]) then 0
    else 1 + FirstBest(lines[1..])
  }

  /** The `info` entries accumulated from `lines`, later lines overriding earlier ones. */
  function Gathered(lines: seq<string>): Info {
    if lines == [] then NoInfo
    else
      var before := Gathered(lines[..|lines| - 1]);
      var last := lines[|lines| - 1];
      if IsInfoLine(last) then Merge(before, InfoOf(last)) else before
  }

  /**
   * The reading loop of `get_best_move` over the lines received before the
   * deadline: `info` lines update the last search information until the first
   * `bestmove` line, whose move is the answer.
   */
  method ReadSearch(lines: seq<string>) returns (best: Option<string>, last: Info)
    ensures var k := FirstBest(lines);
      && best == (if k < |lines| then BestMoveOf(lines[k]) else None)
      && last == Gathered(lines[..k])
  {
    best := None;
    last := NoInfo;
    var i := 0;
    while i < |lines|
      invariant i <= FirstBest(lines) && best.None?
      invariant last == Gathered(lines[..i])
    {
      GatheredStep(lines, i);
      var stop;
      last, best, stop := ReadLine(last, lines[i]);
      if stop {
        assert FirstBest(lines) == i;
        return;
      }
      i := i + 1;
    }
    assert lines[..i] == lines;
  }

  /**
   * One line of that loop: an empty line is skipped, an `info` line is
   * merged into the information so far, and a `bestmove` line stops the loop
   * with its move.
   */
  method ReadLine(last: Info, line: string) returns (next: Info, best: Option<string>, stop: bool)
    ensures stop <==> IsBestLine(line)
    ensures stop ==> best == BestMoveOf(line) && next == last
    ensures !stop ==> best.None?
    ensures !stop ==> next == (if IsInfoLine(line) then Merge(last, InfoOf(line)) else last)
  {
    next, best, stop := last, None, false;
    if line == "" {
      // an empty line is skipped
    } else if IsInfoLine(line) {
      InfoNotBest(line);
      var info := ParseInfo(line);
      next := Merge(last, info);
    } else if IsBestLine(line) {
      best := BestMoveOf(line);
      stop := true;
    }
  }

  /** An `info` line is not a `bestmove` line, and neither is an empty one. */
  lemma InfoNotBest(line: string)
    ensures IsInfoLine(line) ==> !IsBestLine(line)
  {
    if IsInfoLine(line) {
      assert line[0] == 'i' by {
        assert line[..5][0] == line[0];
      }
    }
  }

  /** One more line read: an `info` line is merged in, any other line changes nothing. */
  lemma GatheredStep(lines: seq<string>, i: nat)
    requires i < |lines|
    ensures Gathered(lines[..i + 1]) ==
      if IsInfoLine(lines[i]) then Merge(Gathered(lines[..i]), InfoOf(lines[i])) else Gathered(lines[..i])
  {
    assert lines[..i + 1][..i] == lines[..i];
  }

  /** The score an `info` line carries, if it carries one; other lines carry none. */
  function LineScore(line: string): Option<Score> {
    if IsInfoLine(line) then InfoOf(line).score else None
  }

  function LineScores(lines: seq<string>): (ss: seq<Option<Score>>)
    ensures |ss| == |lines| && forall j :: 0 <= j < |lines| ==> ss[j] == LineScore(lines[j])
  {
    seq(|lines|, j requires 0 <= j < |lines| => LineScore(lines[j]))
  }

  /** `s` is the last present entry of `ss`, or `None` when no entry is present. */
  predicate LastPresent<T(==)>(ss: seq<Option<T>>, s: Option<T>) {
    && (s.None? ==> forall j :: 0 <= j < |ss| ==> ss[j].None?)
    && (s.Some? ==>
          exists j ::
            && 0 <= j < |ss| && ss[j] == s
            && forall j' :: j < j' < |ss| ==> ss[j'].None?)
  }

  lemma LastPresentStep<T>(ss: seq<Option<T>>, x: Option<T>, s: Option<T>)
    requires LastPresent(ss, s)
    ensures LastPresent(ss + [x], if x.Some? then x else s)
  {
    var ss' := ss + [x];
    assert forall j :: 0 <= j < |ss| ==> ss'[j] == ss[j];
    if x.Some? {
      assert ss'[|ss|] == x;
    } else if s.Some? {
      var j :| 0 <= j < |ss| && ss[j] == s && forall j' :: j < j' < |ss| ==> ss[j'].None?;
      assert ss'[j] == s;
    }
  }

  /** The score kept is the one of the last `info` line that carried a score. */
  lemma {:induction false} GatheredScore(lines: seq<string>)
    ensures LastPresent(LineScores(lines), Gathered(lines).score)
  {
    if lines != [] {
      var n := |lines| - 1;
      var init := lines[..n];
      GatheredScore(init);
      LastPresentStep(LineScores(init), LineScore(lines[n]), Gathered(init).score);
      LineScoresSnoc(lines);
      GatheredScoreSnoc(lines);
    }
  }

  lemma LineScoresSnoc(lines: seq<string>)
    requires lines != []
    ensures LineScores(lines) == LineScores(lines[..|lines| - 1]) + [LineScore(lines[|lines| - 1])]
  {
  }

  lemma GatheredScoreSnoc(lines: seq<string>)
    requires lines != []
    ensures var x := LineScore(lines[|lines| - 1]);
      Gathered(lines).score == if x.Some? then x else Gathered(lines[..|lines| - 1]).score
  {
  }

  // ---------------------------------------------------------------- scores

  /** A forced mate counts as 30000 centipawns, for or against the side to move. */
  const MateValue := 30000

  /** A centipawn score passes through; a mate score becomes plus or minus `MateValue`. */
  function Centipawns(s: Score): (cp: int)
    ensures s.kind == Cp ==> cp == s.value
    ensures s.kind == Mate ==> (cp == MateValue <==> s.value > 0) && (cp == -MateValue <==> s.value <= 0)
  {
    match s.kind
    case Mate => if s.value > 0 then MateValue else -MateValue
    case Cp => s.value
  }

  /** A mate for the side to move outranks every centipawn score short of a mate. */
  lemma MateOutranks(n: int, c: int)
    requires n > 0 && -MateValue < c < MateValue
    ensures Centipawns(Score(Mate, n)) > Centipawns(Score(Cp, c))
    ensures Centipawns(Score(Mate, -n)) < Centipawns(Score(Cp, c))
  {
  }

  /**
   * `get_eval`: the score of the last `info` line before `bestmove`, from the
   * side to move's point of view, or `None` when no line carried a score.
   */
  method GetEval(lines: seq<string>) returns (cp: Option<int>)
    ensures cp.None? <==> forall j :: 0 <= j < FirstBest(lines) ==> LineScore(lines[j]).None?
    ensures cp.Some? ==>
      exists j ::
        && 0 <= j < FirstBest(lines) && LineScore(lines[j]).Some?
        && cp.value == Centipawns(LineScore(lines[j]).value)
        && forall j' :: j < j' < FirstBest(lines) ==> LineScore(lines[j']).None?
  {
    var _, last := ReadSearch(lines);
    ghost var pre := lines[..FirstBest(lines)];
    GatheredScore(pre);
    assert forall j :: 0 <= j < |pre| ==> LineScores(pre)[j] == LineScore(lines[j]);
    if last.score.None? {
      cp := None;
    } else {
      cp := Some(Centipawns(last.score.value));
    }
  }

  /** The side to move after the space-separated move list `moves`: even counts mean White. */
  function WhiteToMove(moves: string): bool {
    |Split(moves)| % 2 == 0
  }

  /** A score for the side to move, seen from White. */
  function WhiteView(moves: string, s: Score): (cp: int)
    ensures cp == Centipawns(s) || cp == -Centipawns(s)
  {
    if WhiteToMove(moves) then Centipawns(s) else -Centipawns(s)
  }

  /** One more move hands the turn over, and so flips the sign of the same score. */
  lemma WhiteViewFlips(ms: seq<string>, m: string, s: Score)
    requires forall i :: 0 <= i < |ms| ==> ms[i] != [] && NoSpace(ms[i])
    requires m != [] && NoSpace(m)
    ensures WhiteView(Join(" ", ms + [m]), s) == -WhiteView(Join(" ", ms), s)
  {
    var ms' := ms + [m];
    forall i | 0 <= i < |ms'|
      ensures ms'[i] != [] && NoSpace(ms'[i])
    {
      if i < |ms| { assert ms'[i] == ms[i]; }
    }
    MoveCount(ms);
    MoveCount(ms');
    OneMoreFlips(Join(" ", ms), Join(" ", ms'), s);
  }

  lemma MoveCount(ms: seq<string>)
    requires forall i :: 0 <= i < |ms| ==> ms[i] != [] && NoSpace(ms[i])
    ensures |Split(Join(" ", ms))| == |ms|
  {
    SplitJoin(ms);
  }

  lemma OneMoreFlips(a: string, b: string, s: Score)
    requires |Split(b)| == |Split(a)| + 1
    ensures WhiteView(b, s) == -WhiteView(a, s)
  {
    assert WhiteToMove(b) != WhiteToMove(a);
  }

  /**
   * `eval_position`: the last score before `bestmove` turned to White's point
   * of view, with its kind.
   */
  method EvalPosition(moves: string, lines: seq<string>) returns (cp: Option<int>, kind: Option<ScoreKind>)
    ensures cp.Some? <==> kind.Some?
    ensures var g := Gathered(lines[..FirstBest(lines)]).score;
      && (g.None? ==> cp.None?)
      && (g.Some? ==> cp == Some(WhiteView(moves, g.value)) && kind == Some(g.value.kind))
  {
    var _, last := ReadSearch(lines);
    if last.score.None? {
      return None, None;
    }
    var s := last.score.value;
    var v := Centipawns(s);
    if !WhiteToMove(moves) {
      v := -v;
    }
    cp, kind := Some(v), Some(s.kind);
  }

  // ---------------------------------------------------------------- waiting for a keyword

  /** `_wait` takes a non-empty line that is the keyword once stripped, or starts with it. */
  predicate Accepts(line: string, kw: string) {
    line != "" && (Strip(line) == kw || StartsWith(line, kw))
  }

  /**
   * For a line that does not start with white space, stripping adds nothing:
   * it is accepted exactly when it starts with the keyword.
   */
  lemma AcceptsUnpadded(line: string, kw: string)
    requires line != "" && !IsSpace(line[0])
    ensures Accepts(line, kw) <==> StartsWith(line, kw)
  {
    assert LStrip(line) == line;
    RStripKeepsHead(line);
  }

  /** A keyword with surrounding white space is still accepted. */
  lemma AcceptsPadded(pre: string, kw: string, post: string)
    requires kw != [] && !IsSpace(kw[0]) && !IsSpace(kw[|kw| - 1])
    requires forall i :: 0 <= i < |pre| ==> IsSpace(pre[i])
    requires forall i :: 0 <= i < |post| ==> IsSpace(post[i])
    ensures Accepts(pre + kw + post, kw)
  {
    LStripSpaces(pre, kw + post);
    assert pre + kw + post == pre + (kw + post);
    RStripSpaces(kw, post);
  }

  lemma {:induction false} LStripSpaces(pre: string, s: string)
    requires forall i :: 0 <= i < |pre| ==> IsSpace(pre[i])
    requires s != [] && !IsSpace(s[0])
    ensures LStrip(pre + s) == s
  {
    if pre == [] {
      assert pre + s == s;
    } else {
      assert (pre + s)[1..] == pre[1..] + s;
      LStripSpaces(pre[1..], s);
    }
  }

  lemma {:induction false} RStripSpaces(s: string, post: string)
    requires forall i :: 0 <= i < |post| ==> IsSpace(post[i])
    requires s != [] && !IsSpace(s[|s| - 1])
    ensures RStrip(s + post) == s
  {
    if post == [] {
      assert s + post == s;
    } else {
      var n := |post| - 1;
      assert (s + post)[..|s + post| - 1] == s + post[..n];
      RStripSpaces(s, post[..n]);
    }
  }

  /**
   * `_wait` over the lines received before the deadline: true as soon as one is
   * accepted, false when none is.
   */
  method Wait(lines: seq<string>, kw: string) returns (found: bool)
    ensures found <==> exists j :: 0 <= j < |lines| && Accepts(lines[j], kw)
  {
    var i := 0;
    while i < |lines|
      invariant i <= |lines|
      invariant forall j :: 0 <= j < i ==> !Accepts(lines[j], kw)
    {
      var line := lines[i];
      if line != "" && (Strip(line) == kw || StartsWith(line, kw)) {
        return true;
      }
      i := i + 1;
    }
    return false;
  }
}
