// Transcript search (alt-screen-search.ts): the rows of the screen become one text with single spaces
// between words, and a match in it is mapped back to the columns it came from. Segmentation of a row
// into graphemes and their widths are given.

module Search {
  import opened Basics

  /** A grapheme of a row; it is blank when there is nothing but white space in it. */
  datatype Grapheme = Grapheme(text: string, width: nat) {
    predicate Blank() { text != "" && forall i | 0 <= i < |text| :: White(text[i]) }
  }

  datatype Span = Span(row: nat, startCol: nat, endCol: nat)

  /** The text so far, for each of its characters where it came from, and whether a separator is due. */
  datatype Corpus = Corpus(text: string, source: seq<Option<Span>>, pending: bool)

  // ---------------------------------------------------------------- building the corpus

  function Repeat(span: Option<Span>, n: nat): (r: seq<Option<Span>>)
    ensures |r| == n && forall i | 0 <= i < n :: r[i] == span
  {
    seq(n, _ => span)
  }

  function AppendMapped(c: Corpus, text: string, span: Option<Span>): Corpus {
    c.(text := c.text + text, source := c.source + Repeat(span, |text|))
  }

  function Add(c: Corpus, g: Grapheme, row: nat, column: nat): Corpus {
    if g.Blank() then c.(pending := c.pending || c.text != "")
    else
      var d := if c.pending then AppendMapped(c, " ", None).(pending := false) else c;
      AppendMapped(d, g.text, Some(Span(row, column, column + g.width)))
  }

  function Width(line: seq<Grapheme>, k: nat): nat
    requires k <= |line|
  {
    if k == 0 then 0 else Width(line, k - 1) + line[k - 1].width
  }

  /** The corpus when the rows before `row`, and of that row the first `k` graphemes, are in. */
  function Build(lines: seq<seq<Grapheme>>, row: nat, k: nat): Corpus
    requires row <= |lines| && if row < |lines| then k <= |lines[row]| else k == 0
    decreases row, k
  {
    if k > 0 then Add(Build(lines, row, k - 1), lines[row][k - 1], row, Width(lines[row], k - 1))
    else if row > 0 then
      var c := Build(lines, row - 1, |lines[row - 1]|);
      c.(pending := c.pending || c.text != "")
    else Corpus("", [], false)
  }

  method BuildSearchCorpus(lines: seq<seq<Grapheme>>) returns (text: string, source: seq<Option<Span>>)
    ensures text == Build(lines, |lines|, 0).text && source == Build(lines, |lines|, 0).source
  {
    var pending := false;
    text, source := "", [];
    for row := 0 to |lines|
      invariant Corpus(text, source, pending) == Build(lines, row, 0)
    {
      var column := 0;
      for k := 0 to |lines[row]|
        invariant Corpus(text, source, pending) == Build(lines, row, k)
        invariant column == Width(lines[row], k)
      {
        var g := lines[row][k];
        if g.Blank() {
          if |text| > 0 { pending := true; }
          column := column + g.width;
          continue;
        }
        if pending {
          text, source := text + " ", source + Repeat(None, 1);
          pending := false;
        }
        text, source := text + g.text, source + Repeat(Some(Span(row, column, column + g.width)), |g.text|);
        column := column + g.width;
      }
      if |text| > 0 { pending := true; }
    }
  }

  // ---------------------------------------------------------------- the shape of the corpus

  /** Text and source are as long as each other, and a separator is one space with characters of the
      screen on either side. */
  ghost predicate WellFormed(c: Corpus) {
    && |c.text| == |c.source|
    && (c.pending ==> c.text != "")
    && (c.text != "" ==> c.source[|c.source| - 1].Some?)
    && (forall i | 0 <= i < |c.source| && c.source[i].None? ::
          0 < i < |c.source| - 1 && c.text[i] == ' ' && c.source[i - 1].Some? && c.source[i + 1].Some?)
  }

  /** The same grapheme, or one further on. */
  predicate NotAfter(a: Span, b: Span) {
    a.row < b.row || (a.row == b.row && (a == b || a.endCol <= b.startCol))
  }

  /** The map runs along the screen, and has come as far as `row` and `column`. */
  ghost predicate Along(source: seq<Option<Span>>, row: nat, column: nat) {
    && (forall i | 0 <= i < |source| && source[i].Some? ::
          source[i].value.startCol <= source[i].value.endCol &&
          (source[i].value.row < row || (source[i].value.row == row && source[i].value.endCol <= column)))
    && (forall i, j | 0 <= i < j < |source| && source[i].Some? && source[j].Some? ::
          NotAfter(source[i].value, source[j].value))
  }

  ghost predicate RealGraphemes(lines: seq<seq<Grapheme>>) {
    forall r, k | 0 <= r < |lines| && 0 <= k < |lines[r]| :: lines[r][k].text != ""
  }

  lemma AddIsWellFormed(c: Corpus, g: Grapheme, row: nat, column: nat)
    requires WellFormed(c) && g.text != ""
    ensures WellFormed(Add(c, g, row, column))
  {
  }

  lemma AddGoesAlong(c: Corpus, g: Grapheme, row: nat, column: nat)
    requires Along(c.source, row, column)
    ensures Along(Add(c, g, row, column).source, row, column + g.width)
  {
  }

  /** Main result on the corpus: one source for each character, single inner separators, and the map runs
      along the screen. */
  lemma {:induction false} CorpusIsMapped(lines: seq<seq<Grapheme>>, row: nat, k: nat)
    requires RealGraphemes(lines) && row <= |lines| && if row < |lines| then k <= |lines[row]| else k == 0
    ensures WellFormed(Build(lines, row, k))
    ensures Along(Build(lines, row, k).source, row, if k > 0 then Width(lines[row], k) else 0)
    decreases row, k
  {
    if k > 0 {
      CorpusIsMapped(lines, row, k - 1);
      AddIsWellFormed(Build(lines, row, k - 1), lines[row][k - 1], row, Width(lines[row], k - 1));
      AddGoesAlong(Build(lines, row, k - 1), lines[row][k - 1], row, Width(lines[row], k - 1));
    } else if row > 0 {
      CorpusIsMapped(lines, row - 1, |lines[row - 1]|);
    }
  }

  /** Where in the corpus a grapheme's text begins: after the separator, if one is due. */
  function StartOf(c: Corpus): nat { |c.text| + if c.pending then 1 else 0 }

  /** The text of a grapheme stands at `start`, and each of its characters comes from its columns. */
  predicate Stands(c: Corpus, start: nat, text: string, span: Span) {
    && start + |text| <= |c.text| == |c.source| && c.text[start..start + |text|] == text
    && forall i | start <= i < start + |text| :: c.source[i] == Some(span)
  }

  lemma AddStands(c: Corpus, g: Grapheme, row: nat, column: nat)
    requires |c.text| == |c.source| && !g.Blank()
    ensures Stands(Add(c, g, row, column), StartOf(c), g.text, Span(row, column, column + g.width))
  {
  }

  /** What comes after leaves it where it is. */
  lemma AddKeeps(c: Corpus, g: Grapheme, row: nat, column: nat, start: nat, text: string, span: Span)
    requires Stands(c, start, text, span)
    ensures Stands(Add(c, g, row, column), start, text, span)
  {
    var d := Add(c, g, row, column);
    assert c.text <= d.text && c.source <= d.source;
    assert d.text[..|c.text|] == c.text;
    assert d.text[start..start + |text|] == c.text[start..start + |text|];
  }

  lemma {:induction false} StandsOn(lines: seq<seq<Grapheme>>, r: nat, j: nat, row: nat, k: nat)
    requires RealGraphemes(lines) && r < |lines| && j < |lines[r]| && !lines[r][j].Blank()
    requires row <= |lines| && if row < |lines| then k <= |lines[row]| else k == 0
    requires r < row || (r == row && j < k)
    ensures var column := Width(lines[r], j);
      Stands(Build(lines, row, k), StartOf(Build(lines, r, j)), lines[r][j].text,
             Span(r, column, column + lines[r][j].width))
    decreases row, k
  {
    var start, text := StartOf(Build(lines, r, j)), lines[r][j].text;
    var span := Span(r, Width(lines[r], j), Width(lines[r], j) + lines[r][j].width);
    if k > 0 {
      CorpusIsMapped(lines, row, k - 1);
      if r == row && j == k - 1 {
        AddStands(Build(lines, r, j), lines[r][j], r, Width(lines[r], j));
      } else {
        StandsOn(lines, r, j, row, k - 1);
        AddKeeps(Build(lines, row, k - 1), lines[row][k - 1], row, Width(lines[row], k - 1), start, text, span);
      }
    } else {
      StandsOn(lines, r, j, row - 1, |lines[row - 1]|);
    }
  }

  /** Every grapheme that is not blank is in the corpus, whole, and its characters come from its own columns. */
  lemma GraphemeIsMapped(lines: seq<seq<Grapheme>>, r: nat, j: nat)
    requires RealGraphemes(lines) && r < |lines| && j < |lines[r]| && !lines[r][j].Blank()
    ensures var column := Width(lines[r], j);
      Stands(Build(lines, |lines|, 0), StartOf(Build(lines, r, j)), lines[r][j].text,
             Span(r, column, column + lines[r][j].width))
  {
    StandsOn(lines, r, j, |lines|, 0);
  }

  // ---------------------------------------------------------------- from a match to the screen

  /** The grapheme takes up this column. */
  predicate Takes(line: seq<Grapheme>, k: nat, column: nat) {
    k < |line| && Width(line, k) <= column < Width(line, k) + line[k].width
  }

  lemma {:induction false} WidthGrows(line: seq<Grapheme>, j: nat, k: nat)
    requires j <= k <= |line|
    ensures Width(line, j) <= Width(line, k)
  {
    if j < k { WidthGrows(line, j, k - 1); }
  }

  lemma {:induction false} SomethingTakes(line: seq<Grapheme>, n: nat, column: nat) returns (k: nat)
    requires n <= |line| && column < Width(line, n)
    ensures k < n && Takes(line, k, column)
  {
    if Width(line, n - 1) <= column { return n - 1; }
    k := SomethingTakes(line, n - 1, column);
  }

  /** The columns are the graphemes side by side from the left edge on: on each within the row's width there
      stands exactly one. */
  lemma OneOnEachColumn(line: seq<Grapheme>, column: nat)
    ensures column < Width(line, |line|) <==> exists k: nat :: Takes(line, k, column)
    ensures forall j: nat, k: nat | Takes(line, j, column) && Takes(line, k, column) :: j == k
  {
    if column < Width(line, |line|) { var k := SomethingTakes(line, |line|, column); }
    forall k: nat | Takes(line, k, column) ensures column < Width(line, |line|) { WidthGrows(line, k + 1, |line|); }
    forall j: nat, k: nat | Takes(line, j, column) && Takes(line, k, column) ensures j == k {
      if j < k { WidthGrows(line, j + 1, k); } else if k < j { WidthGrows(line, k + 1, j); }
    }
  }

  predicate Covers(span: Span, row: nat, column: nat) { span.row == row && span.startCol <= column < span.endCol }

  ghost predicate SomeCovers(segments: seq<Span>, row: nat, column: nat) {
    exists s | s in segments :: Covers(s, row, column)
  }

  ghost predicate SourceCovers(source: seq<Option<Span>>, start: nat, end: nat, row: nat, column: nat)
    requires start <= end <= |source|
  {
    exists i | start <= i < end :: source[i].Some? && Covers(source[i].value, row, column)
  }

  /** In row order, and with a column between any two in a row. */
  predicate Separated(segments: seq<Span>) {
    forall i | 0 < i < |segments| ::
      segments[i - 1].row < segments[i].row ||
      (segments[i - 1].row == segments[i].row && segments[i - 1].endCol < segments[i].startCol)
  }

  /** The last segment starts and ends where sources of its row do. */
  ghost predicate Reaches(source: seq<Option<Span>>, index: nat, segments: seq<Span>)
    requires index <= |source|
  {
    segments != [] ==>
      var last := segments[|segments| - 1];
      && (exists i | 0 <= i < index :: HasEnd(source[i], last))
      && (exists i | 0 <= i < index :: HasStart(source[i], last))
  }

  predicate HasEnd(s: Option<Span>, last: Span) { s.Some? && s.value.row == last.row && s.value.endCol == last.endCol }

  predicate HasStart(s: Option<Span>, last: Span) {
    s.Some? && s.value.row == last.row && s.value.startCol == last.startCol
  }

  /** The next source of the row starts no earlier than the last segment, and no source is of an earlier
      row. */
  lemma NextIsFurther(source: seq<Option<Span>>, index: nat, segments: seq<Span>, row: nat, column: nat)
    requires index < |source| && Along(source, row, column) && Reaches(source, index, segments) && segments != []
    requires source[index].Some?
    ensures var last, span := segments[|segments| - 1], source[index].value;
      && last.row <= span.row && span.startCol <= span.endCol
      && (last.row == span.row ==> last.startCol <= span.startCol)
  {
  }

  lemma PushCovers(segments: seq<Span>, span: Span, r: nat, c: nat)
    ensures SomeCovers(segments + [span], r, c) <==> SomeCovers(segments, r, c) || Covers(span, r, c)
  {
  }

  /** A segment that a source touches, and the source, cover what they cover merged. */
  lemma MergeCovers(segments: seq<Span>, span: Span, merged: Span, r: nat, c: nat)
    requires segments != []
    requires var last := segments[|segments| - 1];
      && last.row == span.row && last.startCol <= span.startCol <= last.endCol
      && merged == last.(endCol := if span.endCol > last.endCol then span.endCol else last.endCol)
    ensures SomeCovers(segments[|segments| - 1 := merged], r, c) <==> SomeCovers(segments, r, c) || Covers(span, r, c)
  {
    var n := |segments| - 1;
    PushCovers(segments[..n], segments[n], r, c);
    PushCovers(segments[..n], merged, r, c);
    assert segments[..n] + [segments[n]] == segments;
    assert segments[..n] + [merged] == segments[n := merged];
  }

  lemma SourceCoversMore(source: seq<Option<Span>>, start: nat, index: nat, r: nat, c: nat)
    requires start <= index < |source|
    ensures SourceCovers(source, start, index + 1, r, c) <==>
      SourceCovers(source, start, index, r, c) || (source[index].Some? && Covers(source[index].value, r, c))
  {
  }

  ghost predicate CoversSame(source: seq<Option<Span>>, start: nat, index: nat, segments: seq<Span>)
    requires start <= index <= |source|
  {
    forall r: nat, c: nat :: SomeCovers(segments, r, c) <==> SourceCovers(source, start, index, r, c)
  }

  function Extended(segments: seq<Span>, span: Span): seq<Span> {
    var n := |segments| - 1;
    if segments != [] && segments[n].row == span.row && span.startCol <= segments[n].endCol then
      segments[n := segments[n].(
        endCol := if span.endCol > segments[n].endCol then span.endCol else segments[n].endCol)]
    else segments + [span]
  }

  /** The segments of the match that takes a range of the corpus. */
  function Segments(source: seq<Option<Span>>, start: nat, end: nat): seq<Span>
    requires start <= end <= |source|
  {
    if start == end then []
    else
      var before := Segments(source, start, end - 1);
      if source[end - 1].Some? then Extended(before, source[end - 1].value) else before
  }

  lemma ExtendedIsRight(source: seq<Option<Span>>, start: nat, index: nat, segments: seq<Span>, row: nat, column: nat)
    requires start <= index < |source| && Along(source, row, column) && source[index].Some?
    requires Separated(segments) && Reaches(source, index, segments) && CoversSame(source, start, index, segments)
    ensures var more := Extended(segments, source[index].value);
      Separated(more) && Reaches(source, index + 1, more) && CoversSame(source, start, index + 1, more)
  {
    var span, n := source[index].value, |segments| - 1;
    var more := Extended(segments, span);
    if segments != [] { NextIsFurther(source, index, segments, row, column); }
    forall r: nat, c: nat ensures SomeCovers(more, r, c) <==> SourceCovers(source, start, index + 1, r, c) {
      SourceCoversMore(source, start, index, r, c);
      if segments != [] && segments[n].row == span.row && span.startCol <= segments[n].endCol {
        MergeCovers(segments, span, more[n], r, c);
      } else {
        PushCovers(segments, span, r, c);
      }
    }
    if segments != [] && segments[n].row == span.row && span.startCol <= segments[n].endCol {
      var i :| 0 <= i < index && HasStart(source[i], segments[n]);
      assert HasStart(source[i], more[n]);
      if span.endCol > segments[n].endCol {
        assert HasEnd(source[index], more[n]);
      } else {
        var j :| 0 <= j < index && HasEnd(source[j], segments[n]);
        assert HasEnd(source[j], more[n]);
      }
    } else {
      assert HasEnd(source[index], span) && HasStart(source[index], span);
    }
  }

  /** Main result on matches: whatever range of the corpus a match takes, its segments cover exactly the
      columns of its graphemes, in row order and strictly apart within a row. */
  lemma {:induction false} SegmentsCover(source: seq<Option<Span>>, start: nat, end: nat, row: nat, column: nat)
    requires start <= end <= |source| && Along(source, row, column)
    ensures var segments := Segments(source, start, end);
      Separated(segments) && Reaches(source, end, segments) && CoversSame(source, start, end, segments)
    decreases end
  {
    if start < end {
      SegmentsCover(source, start, end - 1, row, column);
      var before := Segments(source, start, end - 1);
      if source[end - 1].Some? {
        ExtendedIsRight(source, start, end - 1, before, row, column);
      } else {
        SeparatorIsNothing(source, start, end - 1, before);
      }
    } else {
      NothingCovered(source, start);
    }
  }

  lemma NothingCovered(source: seq<Option<Span>>, start: nat)
    requires start <= |source|
    ensures CoversSame(source, start, start, [])
  {
  }

  lemma SeparatorIsNothing(source: seq<Option<Span>>, start: nat, index: nat, segments: seq<Span>)
    requires start <= index < |source| && source[index].None?
    requires Reaches(source, index, segments) && CoversSame(source, start, index, segments)
    ensures Reaches(source, index + 1, segments) && CoversSame(source, start, index + 1, segments)
  {
    forall r: nat, c: nat ensures SomeCovers(segments, r, c) <==> SourceCovers(source, start, index + 1, r, c) {
      SourceCoversMore(source, start, index, r, c);
    }
  }

  /** And of the corpus of any rows of the screen. */
  lemma MatchesCover(lines: seq<seq<Grapheme>>, start: nat, end: nat)
    requires RealGraphemes(lines) && start <= end <= |Build(lines, |lines|, 0).source|
    ensures var source := Build(lines, |lines|, 0).source;
      Separated(Segments(source, start, end)) && CoversSame(source, start, end, Segments(source, start, end))
  {
    CorpusIsMapped(lines, |lines|, 0);
    SegmentsCover(Build(lines, |lines|, 0).source, start, end, |lines|, 0);
  }

  method SegmentsOf(source: seq<Option<Span>>, start: nat, end: nat) returns (segments: seq<Span>)
    requires start <= end <= |source|
    ensures segments == Segments(source, start, end)
  {
    segments := [];
    for index := start to end
      invariant segments == Segments(source, start, index)
    {
      if source[index].None? { continue; }
      var span := source[index].value;
      if |segments| > 0 && segments[|segments| - 1].row == span.row
        && span.startCol <= segments[|segments| - 1].endCol {
        var previous := segments[|segments| - 1];
        segments := segments[|segments| - 1 :=
          previous.(endCol := if span.endCol > previous.endCol then span.endCol else previous.endCol)];
      } else {
        segments := segments + [span];
      }
    }
  }

  predicate InRange(range: (nat, nat), n: nat) { range.0 <= range.1 <= n }

  /** The first `n` ranges as segments; one that takes nothing but a separator is no match. */
  function Matches(source: seq<Option<Span>>, ranges: seq<(nat, nat)>, n: nat := |ranges|): seq<seq<Span>>
    requires n <= |ranges| && forall i | 0 <= i < |ranges| :: InRange(ranges[i], |source|)
  {
    if n == 0 then []
    else
      assert InRange(ranges[n - 1], |source|);
      var segments := Segments(source, ranges[n - 1].0, ranges[n - 1].1);
      if segments == [] then Matches(source, ranges, n - 1) else Matches(source, ranges, n - 1) + [segments]
  }

  /** From the rows of the screen and the ranges a query matches in their corpus to the screen again. */
  method FindMatches(lines: seq<seq<Grapheme>>, ranges: seq<(nat, nat)>) returns (matches: seq<seq<Span>>)
    requires forall i | 0 <= i < |ranges| :: InRange(ranges[i], |Build(lines, |lines|, 0).source|)
    ensures matches == Matches(Build(lines, |lines|, 0).source, ranges)
  {
    var text, source := BuildSearchCorpus(lines);
    matches := [];
    for i := 0 to |ranges|
      invariant matches == Matches(source, ranges, i)
    {
      assert InRange(ranges[i], |source|);
      var segments := SegmentsOf(source, ranges[i].0, ranges[i].1);
      if |segments| > 0 { matches := matches + [segments]; }
    }
  }
}
