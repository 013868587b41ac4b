// What the search corpus has to do with normalizeQuery (alt-screen-search.ts): the corpus is built grapheme by
// grapheme and a query is normalised character by character, and the two agree on all but odd white space.

module SearchText {
  import opened Basics
  import opened Search

  // ---------------------------------------------------------------- normalising a query

  /** Every run of white space becomes one space. */
  function Squeezed(s: string): string {
    if s == "" then ""
    else
      var r, c := Squeezed(s[..|s| - 1]), s[|s| - 1];
      if !White(c) then r + [c] else if |s| > 1 && White(s[|s| - 2]) then r else r + " "
  }

  function NormalizeQuery(s: string): string { Trim(Squeezed(s)) }

  // ---------------------------------------------------------------- the same from left to right

  /** What stands so far, and whether a space is due before more. */
  datatype Scan = Scan(out: string, due: bool)

  const START := Scan("", false)

  function Next(a: Scan, c: char): Scan {
    if White(c) then Scan(a.out, a.due || a.out != "") else Scan(a.out + (if a.due then " " else "") + [c], false)
  }

  function Scanned(a: Scan, s: string): Scan {
    if s == "" then a else Next(Scanned(a, s[..|s| - 1]), s[|s| - 1])
  }

  lemma {:induction false} ScannedAppend(a: Scan, s: string, t: string)
    ensures Scanned(a, s + t) == Scanned(Scanned(a, s), t)
  {
    if t == "" {
      assert s + t == s;
    } else {
      assert (s + t)[..|s + t| - 1] == s + t[..|t| - 1];
      ScannedAppend(a, s, t[..|t| - 1]);
    }
  }

  lemma {:induction false} TrimStartAppend(s: string, c: char)
    ensures TrimStart(s + [c]) ==
      if TrimStart(s) == "" then (if White(c) then "" else [c]) else TrimStart(s) + [c]
  {
    if s == "" {
      assert s + [c] == [c] && [c][1..] == "";
    } else if White(s[0]) {
      assert (s + [c])[1..] == s[1..] + [c];
      TrimStartAppend(s[1..], c);
    }
  }

  /** Where the scan stands in terms of the text: a space is due when the text ends in white space after
      something else. */
  ghost predicate Stands(a: Scan, s: string) {
    && TrimStart(Squeezed(s)) == a.out + (if a.due then " " else "")
    && (s == "" ==> a == START)
    && (s != "" && White(s[|s| - 1]) ==> (a.due <==> a.out != ""))
    && (s != "" && !White(s[|s| - 1]) ==> !a.due && a.out != "")
    && (a.out != "" ==> !White(a.out[|a.out| - 1]))
  }

  lemma StandsNext(a: Scan, s: string, c: char)
    requires Stands(a, s)
    ensures Stands(Next(a, c), s + [c])
  {
    assert (s + [c])[..|s|] == s;
    TrimStartAppend(Squeezed(s), c);
    TrimStartAppend(Squeezed(s), ' ');
  }

  lemma {:induction false} ScanStands(s: string)
    ensures Stands(Scanned(START, s), s)
  {
    if s != "" {
      ScanStands(s[..|s| - 1]);
      StandsNext(Scanned(START, s[..|s| - 1]), s[..|s| - 1], s[|s| - 1]);
      assert s[..|s| - 1] + [s[|s| - 1]] == s;
    }
  }

  lemma ScanNormalizes(s: string)
    ensures NormalizeQuery(s) == Scanned(START, s).out
  {
    ScanStands(s);
    var a := Scanned(START, s);
    assert TrimEnd(a.out) == a.out == a.out + "";
    var spaced := a.out + " ";
    assert spaced[|a.out|] == ' ' && spaced[..|a.out|] == a.out;
    assert TrimEnd(spaced) == TrimEnd(a.out);
  }

  // ---------------------------------------------------------------- texts that are normal already

  /** White space is single spaces. */
  predicate Single(s: string) {
    && (forall i | 0 <= i < |s| && White(s[i]) :: s[i] == ' ')
    && (forall i | 0 < i < |s| :: !(White(s[i - 1]) && White(s[i])))
  }

  predicate StartsWhite(s: string) { s != "" && White(s[0]) }

  predicate EndsWhite(s: string) { s != "" && White(s[|s| - 1]) }

  /** The beginning of a normal text. */
  predicate Loose(s: string) { Single(s) && !StartsWhite(s) }

  /** What may follow a text: single spaces, and none on either side of where they meet. */
  predicate MayFollow(s: string, t: string) { Single(t) && (StartsWhite(t) ==> s != "" && !EndsWhite(s)) }

  lemma LooseParts(s: string, t: string)
    requires t != "" && Loose(s + t)
    ensures Loose(s) && MayFollow(s, t)
  {
    var st := s + t;
    forall i | 0 <= i < |s| ensures st[i] == s[i] { }
    forall i | 0 <= i < |t| ensures st[|s| + i] == t[i] { }
    forall i | 0 < i < |t| ensures !(White(t[i - 1]) && White(t[i])) {
      assert st[|s| + i - 1] == t[i - 1] && st[|s| + i] == t[i];
    }
    assert s != "" ==> st[|s| - 1] == s[|s| - 1] && st[|s|] == t[0];
  }

  lemma LooseJoins(s: string, t: string)
    requires t != "" && Loose(s) && MayFollow(s, t)
    ensures Loose(s + t)
  {
    var st := s + t;
    forall i | 0 < i < |st| ensures !(White(st[i - 1]) && White(st[i])) {
      if i > |s| { assert st[i] == t[i - |s|] && st[i - 1] == t[i - 1 - |s|]; }
    }
  }

  lemma LooseAppend(s: string, t: string)
    requires t != ""
    ensures Loose(s + t) <==> Loose(s) && MayFollow(s, t)
  {
    if Loose(s + t) { LooseParts(s, t); }
    if Loose(s) && MayFollow(s, t) { LooseJoins(s, t); }
  }

  /** The scan of such a text: all of it, less a space at its end. */
  function LooseScan(s: string): Scan {
    if EndsWhite(s) then Scan(s[..|s| - 1], true) else Scan(s, false)
  }

  lemma LooseNext(s: string, c: char)
    requires Loose(s) && MayFollow(s, [c])
    ensures Next(LooseScan(s), c) == LooseScan(s + [c])
  {
    assert (s + [c])[..|s|] == s;
    assert EndsWhite(s) ==> s == s[..|s| - 1] + " ";
    assert s + "" == s;
  }

  lemma {:induction false} LooseScans(s: string)
    requires Loose(s)
    ensures Scanned(START, s) == LooseScan(s)
  {
    if s != "" {
      var before, c := s[..|s| - 1], s[|s| - 1];
      assert s == before + [c];
      LooseParts(before, [c]);
      LooseScans(before);
      LooseNext(before, c);
    }
  }

  lemma NextIsLoose(a: Scan, c: char)
    requires Loose(a.out) && !EndsWhite(a.out) && (a.due ==> a.out != "")
    ensures var b := Next(a, c); Loose(b.out) && !EndsWhite(b.out) && (b.due ==> b.out != "")
  {
    if !White(c) {
      if a.due { LooseAppend(a.out, " "); }
      LooseAppend(a.out + (if a.due then " " else ""), [c]);
    }
  }

  lemma {:induction false} ScanIsLoose(s: string)
    ensures var a := Scanned(START, s); Loose(a.out) && !EndsWhite(a.out) && (a.due ==> a.out != "")
  {
    if s != "" {
      ScanIsLoose(s[..|s| - 1]);
      NextIsLoose(Scanned(START, s[..|s| - 1]), s[|s| - 1]);
    }
  }

  /** Exactly the texts without white space at either end, and with single spaces within, are normal. */
  lemma NormalExactly(s: string)
    ensures NormalizeQuery(s) == s <==> Loose(s) && !EndsWhite(s)
  {
    ScanNormalizes(s);
    ScanIsLoose(s);
    if Loose(s) { LooseScans(s); }
  }

  // ---------------------------------------------------------------- the rows' own text

  /** The rows as text, each with a line break, up to a grapheme. */
  function RowsText(lines: seq<seq<Grapheme>>, row: nat, k: nat): string
    requires row <= |lines| && if row < |lines| then k <= |lines[row]| else k == 0
    decreases row, k
  {
    if k > 0 then RowsText(lines, row, k - 1) + lines[row][k - 1].text
    else if row > 0 then RowsText(lines, row - 1, |lines[row - 1]|) + "\n"
    else ""
  }

  lemma {:induction false} BlankScans(a: Scan, s: string)
    requires s != "" && forall i | 0 <= i < |s| :: White(s[i])
    ensures Scanned(a, s) == Scan(a.out, a.due || a.out != "")
  {
    if |s| > 1 {
      BlankScans(a, s[..|s| - 1]);
    } else {
      assert s[..0] == "";
    }
  }

  /** The corpus text as it goes on: with the separator that is due. */
  function Continued(c: Corpus): string { if c.pending then c.text + " " else c.text }

  /** For the scan, the corpus stands for the rows' text. */
  ghost predicate Alike(c: Corpus, text: string) {
    (c.pending ==> c.text != "") && Scanned(START, text) == Scanned(START, Continued(c))
  }

  lemma BlankKeepsAlike(c: Corpus, text: string, blank: string)
    requires Alike(c, text) && blank != "" && forall i | 0 <= i < |blank| :: White(blank[i])
    ensures Alike(c.(pending := c.pending || c.text != ""), text + blank)
  {
    ScannedAppend(START, text, blank);
    BlankScans(Scanned(START, text), blank);
    ScannedAppend(START, c.text, " ");
    BlankScans(Scanned(START, c.text), " ");
  }

  lemma VisibleKeepsAlike(c: Corpus, text: string, visible: string, d: Corpus)
    requires Alike(c, text) && d.text == Continued(c) + visible && !d.pending
    ensures Alike(d, text + visible)
  {
    ScannedAppend(START, text, visible);
    ScannedAppend(START, Continued(c), visible);
  }

  lemma AddIsAlike(c: Corpus, g: Grapheme, row: nat, column: nat, text: string, d: Corpus, more: string)
    requires Alike(c, text) && d == Add(c, g, row, column) && more == text + g.text
    ensures Alike(d, more)
  {
    if g.Blank() {
      BlankKeepsAlike(c, text, g.text);
    } else {
      VisibleKeepsAlike(c, text, g.text, d);
    }
  }

  lemma BreakIsAlike(c: Corpus, text: string, d: Corpus, more: string)
    requires Alike(c, text) && d == c.(pending := c.pending || c.text != "") && more == text + "\n"
    ensures Alike(d, more)
  {
    BlankKeepsAlike(c, text, "\n");
  }

  lemma NothingIsAlike(d: Corpus, text: string)
    requires d == Corpus("", [], false) && text == ""
    ensures Alike(d, text)
  {
  }

  lemma AlikeAtGrapheme(lines: seq<seq<Grapheme>>, row: nat, k: nat)
    requires row < |lines| && 0 < k <= |lines[row]| && Alike(Build(lines, row, k - 1), RowsText(lines, row, k - 1))
    ensures Alike(Build(lines, row, k), RowsText(lines, row, k))
  {
    var before, text := Build(lines, row, k - 1), RowsText(lines, row, k - 1);
    var d, more := Build(lines, row, k), RowsText(lines, row, k);
    AddIsAlike(before, lines[row][k - 1], row, Width(lines[row], k - 1), text, d, more);
  }

  lemma AlikeAtBreak(lines: seq<seq<Grapheme>>, row: nat)
    requires 0 < row <= |lines|
    requires Alike(Build(lines, row - 1, |lines[row - 1]|), RowsText(lines, row - 1, |lines[row - 1]|))
    ensures Alike(Build(lines, row, 0), RowsText(lines, row, 0))
  {
    var before, text := Build(lines, row - 1, |lines[row - 1]|), RowsText(lines, row - 1, |lines[row - 1]|);
    BreakIsAlike(before, text, Build(lines, row, 0), RowsText(lines, row, 0));
  }

  lemma {:induction false} CorpusIsAlike(lines: seq<seq<Grapheme>>, row: nat, k: nat)
    requires row <= |lines| && if row < |lines| then k <= |lines[row]| else k == 0
    ensures Alike(Build(lines, row, k), RowsText(lines, row, k))
    decreases row, k
  {
    if k > 0 {
      CorpusIsAlike(lines, row, k - 1);
      AlikeAtGrapheme(lines, row, k);
    } else if row > 0 {
      CorpusIsAlike(lines, row - 1, |lines[row - 1]|);
      AlikeAtBreak(lines, row);
    } else {
      NothingIsAlike(Build(lines, row, k), RowsText(lines, row, k));
    }
  }

  /** Whatever the graphemes, corpus and rows normalise to the same text. */
  lemma NormalizedAlike(lines: seq<seq<Grapheme>>)
    ensures NormalizeQuery(Build(lines, |lines|, 0).text) == NormalizeQuery(RowsText(lines, |lines|, 0))
  {
    var c := Build(lines, |lines|, 0);
    CorpusIsAlike(lines, |lines|, 0);
    ScanNormalizes(c.text);
    ScanNormalizes(RowsText(lines, |lines|, 0));
    ScannedAppend(START, c.text, " ");
    BlankScans(Scanned(START, c.text), " ");
  }

  // ---------------------------------------------------------------- when the corpus is normal

  /** At a grapheme of a row, or at its end: white space in what is not blank is single spaces, each
      between two other characters of graphemes side by side. */
  predicate Fits(lines: seq<seq<Grapheme>>, row: nat, k: nat)
    requires row < |lines| && k <= |lines[row]|
  {
    var line := lines[row];
    if k < |line| && !line[k].Blank() then
      && Single(line[k].text)
      && (StartsWhite(line[k].text) ==> k > 0 && !line[k - 1].Blank() && !EndsWhite(line[k - 1].text))
    else
      k > 0 && !line[k - 1].Blank() ==> !EndsWhite(line[k - 1].text)
  }

  ghost predicate SpacesStandAlone(lines: seq<seq<Grapheme>>) {
    forall row, k | 0 <= row < |lines| && 0 <= k <= |lines[row]| :: Fits(lines, row, k)
  }

  predicate FitsUpTo(lines: seq<seq<Grapheme>>, row: nat, k: nat)
    requires row <= |lines| && if row < |lines| then k <= |lines[row]| else k == 0
    decreases row, k
  {
    if k > 0 then FitsUpTo(lines, row, k - 1) && Fits(lines, row, k - 1)
    else row > 0 ==> FitsUpTo(lines, row - 1, |lines[row - 1]|) && Fits(lines, row - 1, |lines[row - 1]|)
  }

  lemma {:induction false} FitsUpToMeans(lines: seq<seq<Grapheme>>, row: nat, k: nat)
    requires row <= |lines| && if row < |lines| then k <= |lines[row]| else k == 0
    ensures FitsUpTo(lines, row, k) <==>
      && (forall r, j | 0 <= r < row && 0 <= j <= |lines[r]| :: Fits(lines, r, j))
      && (forall j | 0 <= j < k :: Fits(lines, row, j))
    decreases row, k
  {
    if k > 0 {
      FitsUpToMeans(lines, row, k - 1);
    } else if row > 0 {
      FitsUpToMeans(lines, row - 1, |lines[row - 1]|);
    }
  }

  /** What the corpus ends in: the last grapheme when it is not blank, and otherwise a separator is due. */
  ghost predicate Ends(c: Corpus, last: Option<Grapheme>) {
    if last.Some? && !last.value.Blank() then
      !c.pending && c.text != "" && last.value.text != "" && (EndsWhite(c.text) <==> EndsWhite(last.value.text))
    else c.pending <==> c.text != ""
  }

  function LastOf(lines: seq<seq<Grapheme>>, row: nat, k: nat): Option<Grapheme>
    requires row <= |lines| && if row < |lines| then k <= |lines[row]| else k == 0
  {
    if k > 0 then Some(lines[row][k - 1]) else None
  }

  /** The corpus so far can be the beginning of a normal text. */
  predicate Regular(c: Corpus) { Loose(c.text) && (c.pending ==> !EndsWhite(c.text)) }

  lemma AddEnds(c: Corpus, g: Grapheme, row: nat, column: nat, last: Option<Grapheme>)
    requires Ends(c, last) && g.text != ""
    ensures Ends(Add(c, g, row, column), Some(g))
  {
  }

  lemma AddIsRegular(c: Corpus, g: Grapheme, row: nat, column: nat, last: Option<Grapheme>)
    requires Ends(c, last) && g.text != "" && !g.Blank()
    ensures Regular(Add(c, g, row, column)) <==>
      Regular(c) && Single(g.text)
      && (StartsWhite(g.text) ==> last.Some? && !last.value.Blank() && !EndsWhite(last.value.text))
  {
    assert Add(c, g, row, column).text == Continued(c) + g.text;
    LooseAppend(Continued(c), g.text);
    LooseAppend(c.text, " ");
  }

  lemma {:induction false} RegularExactly(lines: seq<seq<Grapheme>>, row: nat, k: nat)
    requires RealGraphemes(lines) && row <= |lines| && if row < |lines| then k <= |lines[row]| else k == 0
    ensures Regular(Build(lines, row, k)) <==> FitsUpTo(lines, row, k)
    ensures Ends(Build(lines, row, k), LastOf(lines, row, k))
    decreases row, k
  {
    if k > 0 {
      RegularExactly(lines, row, k - 1);
      var c, g := Build(lines, row, k - 1), lines[row][k - 1];
      AddEnds(c, g, row, Width(lines[row], k - 1), LastOf(lines, row, k - 1));
      if !g.Blank() { AddIsRegular(c, g, row, Width(lines[row], k - 1), LastOf(lines, row, k - 1)); }
    } else if row > 0 {
      RegularExactly(lines, row - 1, |lines[row - 1]|);
    }
  }

  /** Main result on the text: the corpus is the rows' text normalised as a query is, exactly when white space
      within graphemes that are not blank stands alone. */
  lemma CorpusIsNormalizedExactly(lines: seq<seq<Grapheme>>)
    requires RealGraphemes(lines)
    ensures Build(lines, |lines|, 0).text == NormalizeQuery(RowsText(lines, |lines|, 0)) <==> SpacesStandAlone(lines)
  {
    NormalizedAlike(lines);
    NormalExactly(Build(lines, |lines|, 0).text);
    RegularExactly(lines, |lines|, 0);
    FitsUpToMeans(lines, |lines|, 0);
  }

  /** So it is when no grapheme that is not blank has white space in it. */
  lemma CorpusIsNormalized(lines: seq<seq<Grapheme>>)
    requires RealGraphemes(lines)
    requires forall row, k | 0 <= row < |lines| && 0 <= k < |lines[row]| && !lines[row][k].Blank() ::
      forall i | 0 <= i < |lines[row][k].text| :: !White(lines[row][k].text[i])
    ensures Build(lines, |lines|, 0).text == NormalizeQuery(RowsText(lines, |lines|, 0))
  {
    CorpusIsNormalizedExactly(lines);
  }

  /** A row of one space with a combining mark on it: the corpus keeps the space, a query loses it. */
  lemma CombiningMarkStays()
    ensures var lines := [[Grapheme(" \U{0308}", 1)]];
      Build(lines, 1, 0).text == " \U{0308}" && NormalizeQuery(RowsText(lines, 1, 0)) == "\U{0308}"
  {
    var s, lines := " \U{0308}", [[Grapheme(" \U{0308}", 1)]];
    assert !White(s[1]) && s[..1] == " " && " "[..0] == "";
    assert Build(lines, 0, 1).text == "" + s == s;
    NormalizedAlike(lines);
    ScanNormalizes(s);
    assert Scanned(START, s) == Next(Next(START, ' '), s[1]);
    assert Build(lines, 1, 0).text == s;
  }
}
