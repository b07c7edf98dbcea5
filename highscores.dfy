/**
 * The high-score table: a map from difficulty to best score, the max-update the
 * game applies on game over and on level completion, and the `NAME:score` line
 * format of the scores file (written by saveHighScores, read by loadHighScores).
 * Opening, reading and writing the file itself are not modelled: a file is the
 * sequence of its lines.
 */
module HighScores {

  import opened Wrappers
  import opened Difficulties
  import opened JavaText

  type Table = map<Difficulty, int>

  /** `highScores.getOrDefault(d, 0)`. */
  function GetOrDefault(m: Table, d: Difficulty): int {
    if d in m then m[d] else 0
  }

  function Max(a: int, b: int): int { if a < b then b else a }

  /** The table every load starts from: all three difficulties at 0. */
  function Defaults(): (m: Table)
    ensures Total(m)
    ensures forall d :: d in m ==> m[d] == 0
  {
    var m := map[EASY := 0, MEDIUM := 0, HARD := 0];
    TotalOfThree(m);
    m
  }

  /** A table with an entry for every difficulty. */
  predicate Total(m: Table) {
    forall d :: d in m
  }

  lemma TotalOfThree(m: Table)
    requires EASY in m && MEDIUM in m && HARD in m
    ensures Total(m)
  {
    forall d | true ensures d in m {
      match d
      case EASY =>
      case MEDIUM =>
      case HARD =>
    }
  }

  /** A list of difficulties naming each of the three at least once. */
  predicate Covers(order: seq<Difficulty>) {
    forall d :: d in order
  }

  /** The entries of m for the difficulties listed in order. */
  function Restrict(m: Table, order: seq<Difficulty>): Table
    requires forall d :: d in order ==> d in m
  {
    map d | d in order :: m[d]
  }

  // ---------------------------------------------------------------- updateHighScore

  /** updateHighScore: store the new score only when it beats the current (default 0) one. */
  function MaxUpdate(m: Table, d: Difficulty, newScore: int): (r: Table)
    ensures GetOrDefault(r, d) == Max(GetOrDefault(m, d), newScore)
    ensures d in m ==> d in r
  {
    if newScore > GetOrDefault(m, d) then m[d := newScore] else m
  }

  /** The scores of the other difficulties are untouched. */
  lemma MaxUpdateKeepsOthers(m: Table, d: Difficulty, s: int)
    ensures forall e :: e != d ==> (e in MaxUpdate(m, d, s) <==> e in m)
    ensures forall e :: e != d && e in m ==> MaxUpdate(m, d, s)[e] == m[e]
  {
  }

  /** Recording the same score twice changes nothing the second time. */
  lemma MaxUpdateIdempotent(m: Table, d: Difficulty, s: int)
    ensures MaxUpdate(MaxUpdate(m, d, s), d, s) == MaxUpdate(m, d, s)
  {
  }

  /** A high score never goes down, and a complete table stays complete. */
  lemma MaxUpdateMonotone(m: Table, d: Difficulty, s: int)
    ensures forall e :: GetOrDefault(m, e) <= GetOrDefault(MaxUpdate(m, d, s), e)
    ensures Total(m) ==> Total(MaxUpdate(m, d, s))
  {
  }

  // ---------------------------------------------------------------- line format

  /** One line of the scores file as saveHighScores writes it (without the newline). */
  function FormatLine(d: Difficulty, score: int): (line: string)
    ensures JavaSplit(line, ':') == [Name(d), IntToString(score)]
  {
    NameHasNoColon(d);
    IntToStringHasNoColon(score);
    JavaSplitPair(Name(d), ':', IntToString(score));
    Name(d) + [':'] + IntToString(score)
  }

  lemma NameHasNoColon(d: Difficulty)
    ensures ':' !in Name(d)
  {
    var n := Name(d);
    assert forall i :: 0 <= i < |n| ==> n[i] != ':';
  }

  /**
   * The lines written for a table, one per entry, in the order given; the Java
   * code takes the order of the HashMap's entry set, which it does not fix.
   */
  function FormatTable(m: Table, order: seq<Difficulty>): (lines: seq<string>)
    requires forall d :: d in order ==> d in m
    ensures |lines| == |order|
  {
    seq(|order|, i requires 0 <= i < |order| => FormatLine(order[i], m[order[i]]))
  }

  /**
   * One iteration of loadHighScores: a line that splits on ':' into exactly two
   * parts, a difficulty name and a 32-bit integer, gives an entry; any other line
   * is skipped.
   */
  function ParseLine(line: string): (r: Option<(Difficulty, int)>)
    ensures r.Some? ==> |JavaSplit(line, ':')| == 2
    ensures r.Some? ==> Name(r.value.0) == JavaSplit(line, ':')[0] && InInt32(r.value.1)
  {
    var parts := JavaSplit(line, ':');
    if |parts| != 2 then None
    else
      match (ValueOf(parts[0]), ParseInt(parts[1]))
      case (Some(d), Some(n)) => Some((d, n))
      case _ => None
  }

  /** True when a line is accepted and sets the score of difficulty d. */
  predicate Mentions(line: string, d: Difficulty) {
    ParseLine(line).Some? && ParseLine(line).value.0 == d
  }

  /** The table after reading the lines in order, starting from m. */
  function ApplyLines(m: Table, lines: seq<string>): (r: Table)
    ensures m.Keys <= r.Keys
    decreases |lines|
  {
    if |lines| == 0 then m
    else ApplyEntry(ApplyLines(m, lines[..|lines| - 1]), ParseLine(lines[|lines| - 1]))
  }

  /** The table after one more line: an accepted line overwrites its difficulty's entry. */
  function ApplyEntry(m: Table, entry: Option<(Difficulty, int)>): Table {
    match entry
    case Some((d, v)) => m[d := v]
    case None => m
  }

  /** loadHighScores: defaults, then the file's lines if the file exists. */
  function LoadTable(file: Option<seq<string>>): (m: Table)
    ensures Total(m)
  {
    match file
    case None => Defaults()
    case Some(lines) => ApplyLines(Defaults(), lines)
  }

  /**
   * The reading loop of loadHighScores, proved to compute ApplyLines from the
   * defaults.
   */
  method ParseScoreLines(lines: seq<string>) returns (table: Table)
    ensures table == ApplyLines(Defaults(), lines)
  {
    table := Defaults();
    var i := 0;
    while i < |lines|
      invariant 0 <= i <= |lines|
      invariant table == ApplyLines(Defaults(), lines[..i])
    {
      assert lines[..i + 1][..i] == lines[..i];
      var parts := JavaSplit(lines[i], ':');
      if |parts| == 2 {
        var diff := ValueOf(parts[0]);
        var score := ParseInt(parts[1]);
        if diff.Some? && score.Some? {
          table := table[diff.value := score.value];
        }
      }
      i := i + 1;
    }
    assert lines[..i] == lines;
  }

  // ---------------------------------------------------------------- properties of the format

  /** A written line is read back as the same entry. */
  lemma FormatLineParses(d: Difficulty, score: int)
    requires InInt32(score)
    ensures ParseLine(FormatLine(d, score)) == Some((d, score))
  {
    ValueOfName(d);
    ParseIntToString(score);
  }

  /** Reading one more accepted line puts its entry on top of the table read so far. */
  lemma ApplyLinesLast(m: Table, lines: seq<string>, d: Difficulty, v: int)
    requires |lines| > 0 && ParseLine(lines[|lines| - 1]) == Some((d, v))
    ensures ApplyLines(m, lines) == ApplyLines(m, lines[..|lines| - 1])[d := v]
  {
  }

  /** Reading the lines written for one more entry puts that entry on top. */
  lemma ApplyFormattedLast(base: Table, m: Table, order: seq<Difficulty>)
    requires forall d :: d in order ==> d in m
    requires forall d :: d in m ==> InInt32(m[d])
    requires |order| > 0
    ensures var n := |order| - 1;
      ApplyLines(base, FormatTable(m, order))
      == ApplyLines(base, FormatTable(m, order[..n]))[order[n] := m[order[n]]]
  {
    var n := |order| - 1;
    var lines := FormatTable(m, order);
    assert lines[..n] == FormatTable(m, order[..n]);
    FormatLineParses(order[n], m[order[n]]);
    assert lines[n] == FormatLine(order[n], m[order[n]]);
    ApplyLinesLast(base, lines, order[n], m[order[n]]);
  }

  lemma RestrictLast(base: Table, m: Table, order: seq<Difficulty>)
    requires forall d :: d in order ==> d in m
    requires |order| > 0
    ensures var n := |order| - 1;
      (base + Restrict(m, order[..n]))[order[n] := m[order[n]]] == base + Restrict(m, order)
  {
    var n := |order| - 1;
    assert forall d :: d in order <==> d in order[..n] || d == order[n];
  }

  /** Reading the lines written for the entries of `order` overrides exactly those entries. */
  lemma {:induction false} ApplyFormatted(base: Table, m: Table, order: seq<Difficulty>)
    requires forall d :: d in order ==> d in m
    requires forall d :: d in m ==> InInt32(m[d])
    ensures ApplyLines(base, FormatTable(m, order)) == base + Restrict(m, order)
    decreases |order|
  {
    if |order| > 0 {
      var n := |order| - 1;
      ApplyFormatted(base, m, order[..n]);
      ApplyFormattedLast(base, m, order);
      RestrictLast(base, m, order);
    }
  }

  /**
   * Round trip: loading the file saved for a complete table gives that table
   * back, whatever order the entries were written in.
   */
  lemma SaveLoadRoundTrip(m: Table, order: seq<Difficulty>)
    requires Total(m)
    requires forall d :: d in m ==> InInt32(m[d])
    requires Covers(order)
    ensures LoadTable(Some(FormatTable(m, order))) == m
  {
    ApplyFormatted(Defaults(), m, order);
  }

  /** The last accepted line for a difficulty decides its score. */
  lemma {:induction false} LastLineWins(m: Table, lines: seq<string>, i: nat, d: Difficulty, v: int)
    requires i < |lines| && ParseLine(lines[i]) == Some((d, v))
    requires forall j :: i < j < |lines| ==> !Mentions(lines[j], d)
    ensures d in ApplyLines(m, lines) && ApplyLines(m, lines)[d] == v
    decreases |lines|
  {
    var n := |lines| - 1;
    var prev := ApplyLines(m, lines[..n]);
    var entry := ParseLine(lines[n]);
    assert ApplyLines(m, lines) == ApplyEntry(prev, entry);
    if i < n {
      assert entry.None? || entry.value.0 != d by {
        assert !Mentions(lines[n], d);
      }
      assert lines[..n][i] == lines[i];
      LastLineWins(m, lines[..n], i, d, v);
      assert d in prev && prev[d] == v;
    } else {
      assert entry == Some((d, v));
    }
  }

  /** A difficulty no accepted line mentions keeps its starting value (0 when loading). */
  lemma {:induction false} UnmentionedKeepsValue(m: Table, lines: seq<string>, d: Difficulty)
    requires forall j :: 0 <= j < |lines| ==> !Mentions(lines[j], d)
    ensures (d in ApplyLines(m, lines) <==> d in m)
    ensures GetOrDefault(ApplyLines(m, lines), d) == GetOrDefault(m, d)
    decreases |lines|
  {
    var n := |lines| - 1;
    if |lines| > 0 {
      var entry := ParseLine(lines[n]);
      assert ApplyLines(m, lines) == ApplyEntry(ApplyLines(m, lines[..n]), entry);
      assert !Mentions(lines[n], d);
      assert entry.None? || entry.value.0 != d;
      UnmentionedKeepsValue(m, lines[..n], d);
    }
  }

  /** The line's verdict once its split is known. */
  lemma ParseLineOfSplit(line: string, name: string, digits: string)
    requires JavaSplit(line, ':') == [name, digits]
    ensures ParseLine(line) == match (ValueOf(name), ParseInt(digits))
      case (Some(d), Some(n)) => Some((d, n))
      case _ => None
  {
  }

  /** Java's split drops trailing empty strings, so a trailing ':' is accepted. */
  lemma TrailingColonAccepted()
    ensures ParseLine("EASY:5:") == Some((EASY, 5))
  {
    TrailingColonSplit();
    ParseLineOfSplit("EASY:5:", "EASY", "5");
    FiveParses();
  }

  lemma FiveParses()
    ensures ValueOf("EASY") == Some(EASY) && ParseInt("5") == Some(5)
  {
    assert AllDigits("5") && DigitsValue("5") == 5;
  }

  lemma TrailingColonSplit()
    ensures JavaSplit("EASY:5:", ':') == ["EASY", "5"]
  {
    assert "EASY:5:" == "EASY" + [':'] + "5" + [':'];
    assert ':' !in "EASY" && ':' !in "5";
    JavaSplitPairTrailing("EASY", ':', "5");
  }

  /** A line with a third field is skipped. */
  lemma ExtraFieldRejected()
    ensures ParseLine("EASY:5:6") == None
  {
    ExtraFieldSplit();
  }

  lemma ExtraFieldSplit()
    ensures JavaSplit("EASY:5:6", ':') == ["EASY", "5", "6"]
  {
    assert "EASY:5:6" == "EASY" + [':'] + "5" + [':'] + "6";
    assert ':' !in "EASY" && ':' !in "5" && ':' !in "6";
    JavaSplitTriple("EASY", ':', "5", "6");
  }
}
