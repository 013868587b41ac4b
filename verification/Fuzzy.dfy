// Fuzzy matching (fuzzy.ts): a greedy scan for the letters of a query in order, on texts already in lower
// case; scores are counted in tenths.

module Fuzzy {
  import opened Basics
  import Catalog

  /** Places in `text`, in order, where the first letters of `query` are. */
  ghost predicate Embeds(query: string, text: string, ps: seq<int>) {
    && |ps| <= |query|
    && (forall j | 0 <= j < |ps| :: 0 <= ps[j] < |text| && text[ps[j]] == query[j])
    && (forall i, j | 0 <= i < j < |ps| :: ps[i] < ps[j])
  }

  ghost predicate Subsequence(query: string, text: string) {
    exists ps: seq<int> :: |ps| == |query| && Embeds(query, text, ps)
  }

  function Before(ps: seq<int>, k: nat): int
    requires k <= |ps|
  {
    if k == 0 then -1 else ps[k - 1]
  }

  /** Each place is the first after the one before it. */
  ghost predicate Greedy(query: string, text: string, ps: seq<int>) {
    Embeds(query, text, ps) && forall j | 0 <= j < |ps| :: FirstAfter(query, text, ps, j)
  }

  ghost predicate FirstAfter(query: string, text: string, ps: seq<int>, j: nat)
    requires Embeds(query, text, ps) && j < |ps|
  {
    NotBetween(text, query[j], Before(ps, j), ps[j])
  }

  predicate NotBetween(text: string, c: char, after: int, until: int) {
    forall i | 0 <= i < |text| && after < i < until :: text[i] != c
  }

  /** No other embedding has a letter earlier than the greedy one. */
  lemma {:induction false} GreedyIsLeftmost(query: string, text: string, ps: seq<int>, es: seq<int>, j: nat)
    requires Greedy(query, text, ps) && Embeds(query, text, es) && j < |ps| && j < |es|
    ensures ps[j] <= es[j]
  {
    if j > 0 { GreedyIsLeftmost(query, text, ps, es, j - 1); }
    assert FirstAfter(query, text, ps, j);
  }

  /** When the scan ends with letters left, there is no embedding at all. */
  lemma StuckMeansNone(query: string, text: string, ps: seq<int>)
    requires Greedy(query, text, ps) && |ps| < |query| && NotBetween(text, query[|ps|], Before(ps, |ps|), |text|)
    ensures !Subsequence(query, text)
  {
    forall es: seq<int> | |es| == |query| ensures !Embeds(query, text, es) {
      var k := |ps|;
      if k > 0 && Embeds(query, text, es) { GreedyIsLeftmost(query, text, ps, es, k - 1); }
      assert 0 <= es[k] < |text| && Before(ps, k) < es[k] ==> text[es[k]] != query[k];
    }
  }

  // ---------------------------------------------------------------- the score of an embedding

  predicate Boundary(c: char) { White(c) || c in "-_./:" }

  /** How many places, up to the `k`-th, follow one another; a first place at the start of the text counts
      as following. */
  function InARow(ps: seq<int>, k: nat): nat
    requires k <= |ps|
  {
    if k == 0 || Before(ps, k - 1) != ps[k - 1] - 1 then 0 else InARow(ps, k - 1) + 1
  }

  function Gap(ps: seq<int>, k: nat): int
    requires 0 < k <= |ps|
  {
    if Before(ps, k - 1) == ps[k - 1] - 1 then -5 * InARow(ps, k)
    else if k > 1 then (ps[k - 1] - Before(ps, k - 1) - 1) * 2 else 0
  }

  function ScoreTo(text: string, ps: seq<int>, k: nat): int
    requires k <= |ps| && forall j | 0 <= j < |ps| :: 0 <= ps[j] < |text|
  {
    if k == 0 then 0
    else
      var i := ps[k - 1];
      ScoreTo(text, ps, k - 1) + 10 * Gap(ps, k) - (if i == 0 || Boundary(text[i - 1]) then 100 else 0) + i
  }

  lemma {:induction false} ScorePrefix(text: string, ps: seq<int>, more: seq<int>, k: nat)
    requires k <= |ps| && ps <= more && forall j | 0 <= j < |more| :: 0 <= more[j] < |text|
    ensures ScoreTo(text, more, k) == ScoreTo(text, ps, k) && InARow(more, k) == InARow(ps, k)
  {
    if k > 0 { ScorePrefix(text, ps, more, k - 1); }
  }

  datatype Match = Match(matches: bool, score: int)

  /** The places the scan has taken when it has looked at the first `n` letters of the text. */
  function Places(query: string, text: string, n: nat := |text|): (ps: seq<int>)
    requires n <= |text|
    ensures |ps| <= |query| && forall j | 0 <= j < |ps| :: 0 <= ps[j] < n
  {
    if n == 0 then []
    else
      Take(query, text, Places(query, text, n - 1), n - 1)
  }

  /** The place at `i`, if the next letter is there. */
  function Take(query: string, text: string, ps: seq<int>, i: nat): seq<int>
    requires i < |text|
  {
    if |ps| < |query| && text[i] == query[|ps|] then ps + [i] else ps
  }

  /** A query matches when the scan takes a place for every letter; its score is that of these places, less
      a hundred when it is the whole text. */
  function MatchOf(query: string, text: string): Match {
    var ps := Places(query, text);
    if query == "" then Match(true, 0)
    else if |ps| < |query| then Match(false, 0)
    else Match(true, ScoreTo(text, ps, |ps|) - if query == text then 1000 else 0)
  }

  /** The first `n` letters of the text give the places `ps`, and no letter of it was passed over that
      could have been the next place. */
  ghost predicate GreedyUpTo(query: string, text: string, ps: seq<int>, n: nat) {
    && Greedy(query, text, ps) && Before(ps, |ps|) < n
    && (|ps| < |query| ==> NotBetween(text, query[|ps|], Before(ps, |ps|), n))
  }

  lemma OneLetterOn(query: string, text: string, ps: seq<int>, n: nat, more: seq<int>)
    requires n < |text| && GreedyUpTo(query, text, ps, n) && more == Take(query, text, ps, n)
    ensures GreedyUpTo(query, text, more, n + 1)
  {
    if |ps| < |query| && text[n] == query[|ps|] { GreedyMore(query, text, ps, n); }
  }

  lemma NothingTaken(query: string, text: string)
    ensures GreedyUpTo(query, text, [], 0)
  {
  }

  lemma {:induction false} PlacesAreGreedy(query: string, text: string, n: nat)
    requires n <= |text|
    ensures GreedyUpTo(query, text, Places(query, text, n), n)
  {
    if n == 0 {
      NothingTaken(query, text);
    } else {
      PlacesAreGreedy(query, text, n - 1);
      OneLetterOn(query, text, Places(query, text, n - 1), n - 1, Places(query, text, n));
    }
  }

  /** Main result: the greedy scan succeeds exactly when the letters of the query are in the text in
      order, and its places are then the leftmost there are. */
  lemma MatchesExactly(query: string, text: string)
    ensures MatchOf(query, text).matches <==> Subsequence(query, text)
    ensures forall es: seq<int>, j | Embeds(query, text, es) && 0 <= j < |es| && j < |Places(query, text)| ::
      Places(query, text)[j] <= es[j]
  {
    var ps := Places(query, text);
    PlacesAreGreedy(query, text, |text|);
    if |ps| < |query| {
      StuckMeansNone(query, text, ps);
    } else {
      assert |ps| == |query| && Embeds(query, text, ps);
    }
    forall es: seq<int>, j | Embeds(query, text, es) && 0 <= j < |es| && j < |ps| ensures ps[j] <= es[j] {
      GreedyIsLeftmost(query, text, ps, es, j);
    }
  }

  method MatchQuery(query: string, text: string) returns (m: Match)
    ensures m == MatchOf(query, text)
  {
    if |query| == 0 { return Match(true, 0); }
    if |query| > |text| {
      TooLong(query, text, |text|);
      return Match(false, 0);
    }
    var queryIndex, score := Scan(query, text);
    if queryIndex < |query| { return Match(false, 0); }
    if query == text { score := score - 1000; }
    return Match(true, score);
  }

  method Scan(query: string, text: string) returns (queryIndex: nat, score: int)
    ensures queryIndex == |Places(query, text)| && score == ScoreTo(text, Places(query, text), queryIndex)
  {
    queryIndex, score := 0, 0;
    var lastMatchIndex, consecutive := -1, 0;
    var i := 0;
    while i < |text| && queryIndex < |query|
      invariant 0 <= i <= |text|
      invariant Scanned(query, text, i, queryIndex, score, lastMatchIndex, consecutive)
    {
      Looked(query, text, i, queryIndex, score, lastMatchIndex, consecutive);
      if text[i] == query[queryIndex] {
        score, consecutive := AddPoints(text, i, score, lastMatchIndex, consecutive);
        lastMatchIndex := i;
        queryIndex := queryIndex + 1;
      }
      i := i + 1;
    }
    if queryIndex == |query| { NoMorePlaces(query, text, i, |text|); }
  }

  /** Once every letter has its place, the rest of the text adds none. */
  lemma {:induction false} NoMorePlaces(query: string, text: string, n: nat, k: nat)
    requires n <= k <= |text| && |Places(query, text, n)| == |query|
    ensures Places(query, text, k) == Places(query, text, n)
    decreases k
  {
    if n < k { NoMorePlaces(query, text, n, k - 1); }
  }

  function Row(i: nat, lastMatchIndex: int, consecutive: int): int {
    if lastMatchIndex == i - 1 then consecutive + 1 else 0
  }

  /** What a match at `i` adds to the score. */
  function Points(text: string, i: nat, lastMatchIndex: int, consecutive: int): int
    requires i < |text|
  {
    var gap := if lastMatchIndex == i - 1 then -(Row(i, lastMatchIndex, consecutive) * 5)
               else if lastMatchIndex >= 0 then (i - lastMatchIndex - 1) * 2 else 0;
    10 * gap - (if i == 0 || Boundary(text[i - 1]) then 100 else 0) + i
  }

  method AddPoints(text: string, i: nat, score0: int, lastMatchIndex: int, consecutive0: int)
      returns (score: int, consecutive: int)
    requires i < |text|
    ensures score == score0 + Points(text, i, lastMatchIndex, consecutive0)
    ensures consecutive == Row(i, lastMatchIndex, consecutive0)
  {
    score, consecutive := score0, consecutive0;
    if lastMatchIndex == i - 1 {
      consecutive := consecutive + 1;
      score := score - consecutive * 50;
    } else {
      consecutive := 0;
      if lastMatchIndex >= 0 { score := score + (i - lastMatchIndex - 1) * 20; }
    }
    if i == 0 || Boundary(text[i - 1]) { score := score - 100; }
    score := score + i;
  }

  /** The variables of the scan when it has looked at the text up to `i`. */
  ghost predicate Scanned(query: string, text: string, i: nat, queryIndex: nat, score: int, lastMatchIndex: int,
      consecutive: int)
    requires i <= |text|
  {
    var ps := Places(query, text, i);
    && queryIndex == |ps| && lastMatchIndex == Before(ps, |ps|) && consecutive == InARow(ps, |ps|)
    && score == ScoreTo(text, ps, |ps|)
  }

  /** One turn of the scan's loop, hit or miss. */
  lemma Looked(query: string, text: string, i: nat, queryIndex: nat, score: int, lastMatchIndex: int, consecutive: int)
    requires i < |text| && queryIndex < |query|
      && Scanned(query, text, i, queryIndex, score, lastMatchIndex, consecutive)
    ensures if text[i] == query[queryIndex] then
              Scanned(query, text, i + 1, queryIndex + 1, score + Points(text, i, lastMatchIndex, consecutive), i,
                      Row(i, lastMatchIndex, consecutive))
            else Scanned(query, text, i + 1, queryIndex, score, lastMatchIndex, consecutive)
  {
    if text[i] == query[queryIndex] {
      var ps := Places(query, text, i);
      var more := ps + [i];
      assert Places(query, text, i + 1) == more;
      ScorePrefix(text, ps, more, |ps|);
      assert Before(more, |ps|) == lastMatchIndex && Before(more, |more|) == i;
    }
  }

  lemma GreedyMore(query: string, text: string, ps: seq<int>, i: nat)
    requires Greedy(query, text, ps) && |ps| < |query| && i < |text| && Before(ps, |ps|) < i
    requires text[i] == query[|ps|] && NotBetween(text, query[|ps|], Before(ps, |ps|), i)
    ensures Greedy(query, text, ps + [i])
  {
    var more := ps + [i];
    forall j | 0 <= j < |ps| ensures more[j] == ps[j] <= Before(ps, |ps|) { }
    assert Embeds(query, text, more);
    forall j | 0 <= j < |more| ensures FirstAfter(query, text, more, j) {
      if j < |ps| { assert Before(more, j) == Before(ps, j) && FirstAfter(query, text, ps, j); }
    }
  }

  lemma {:induction false} TooLong(query: string, text: string, n: nat)
    requires n <= |text|
    ensures |Places(query, text, n)| <= n
  {
    if n > 0 { TooLong(query, text, n - 1); }
  }

  // ---------------------------------------------------------------- letters and digits swapped

  predicate Letter(c: char) { 'a' <= c <= 'z' }

  predicate Digit(c: char) { '0' <= c <= '9' }

  predicate All(p: char -> bool, s: string) { forall i | 0 <= i < |s| :: p(s[i]) }

  /** Letters then digits, or digits then letters, both there, parted at `k`. */
  predicate PartsAt(q: string, k: int) {
    0 < k < |q| && ((All(Letter, q[..k]) && All(Digit, q[k..])) || (All(Digit, q[..k]) && All(Letter, q[k..])))
  }

  ghost predicate IsSwap(q: string, swapped: string) { exists k :: PartsAt(q, k) && swapped == q[k..] + q[..k] }

  /** How many characters from the first satisfy `p`. */
  function Run(p: char -> bool, s: string): (n: nat)
    ensures n <= |s| && (forall i | 0 <= i < n :: p(s[i])) && (n < |s| ==> !p(s[n]))
  {
    if s == "" || !p(s[0]) then 0 else 1 + Run(p, s[1..])
  }

  /** The query with its letters and digits exchanged, when it is made of just these; empty otherwise. */
  function Swap(q: string): string {
    var letters, digits := Run(Letter, q), Run(Digit, q);
    if 0 < letters < |q| && All(Digit, q[letters..]) then q[letters..] + q[..letters]
    else if 0 < digits < |q| && All(Letter, q[digits..]) then q[digits..] + q[..digits]
    else ""
  }

  /** The exchange is there exactly when the query can be parted. */
  lemma SwapExactly(q: string)
    ensures Swap(q) != "" ==> IsSwap(q, Swap(q))
    ensures Swap(q) == "" ==> forall k :: !PartsAt(q, k)
  {
    var letters, digits := Run(Letter, q), Run(Digit, q);
    forall k | PartsAt(q, k) ensures k == letters || k == digits { PartsAtRun(q, k); }
    if 0 < letters < |q| && All(Digit, q[letters..]) {
      assert PartsAt(q, letters);
    } else if 0 < digits < |q| && All(Letter, q[digits..]) {
      assert PartsAt(q, digits);
    }
  }

  lemma RunEnds(p: char -> bool, q: string, k: nat)
    requires k < |q| && All(p, q[..k]) && !p(q[k])
    ensures Run(p, q) == k
  {
  }

  /** A query is parted where its first run of letters, or of digits, ends. */
  lemma PartsAtRun(q: string, k: int)
    requires PartsAt(q, k)
    ensures k == if Letter(q[0]) then Run(Letter, q) else Run(Digit, q)
  {
    assert q[..k][0] == q[0] && q[k..][0] == q[k];
    if All(Letter, q[..k]) && All(Digit, q[k..]) {
      RunEnds(Letter, q, k);
    } else {
      RunEnds(Digit, q, k);
    }
  }

  /** There is at most one way to part a query. */
  lemma PartsOnce(q: string, j: int, k: int)
    requires PartsAt(q, j) && PartsAt(q, k)
    ensures j == k
  {
    PartsAtRun(q, j);
    PartsAtRun(q, k);
  }

  /** What a query comes to, tried as it is and then, for five points more, exchanged. */
  function FuzzyOf(query: string, text: string): Match {
    var primary, swapped := MatchOf(query, text), Swap(query);
    if primary.matches || swapped == "" then primary
    else
      var second := MatchOf(swapped, text);
      if second.matches then Match(true, second.score + 50) else primary
  }

  method FuzzyMatch(query: string, text: string) returns (m: Match)
    ensures m == FuzzyOf(query, text)
  {
    var primary := MatchQuery(query, text);
    if primary.matches { return primary; }
    var swapped := Swap(query);
    if swapped == "" { return primary; }
    var second := MatchQuery(swapped, text);
    if !second.matches { return primary; }
    return Match(true, second.score + 50);
  }

  /** A query matches exactly when it, or it with its letters and digits exchanged, is in the text in
      order. */
  lemma FuzzyExactly(query: string, text: string)
    ensures FuzzyOf(query, text).matches <==>
      Subsequence(query, text) || exists s :: IsSwap(query, s) && Subsequence(s, text)
  {
    MatchesExactly(query, text);
    var swapped := Swap(query);
    SwapExactly(query);
    MatchesExactly(swapped, text);
    if swapped != "" {
      SwapIsOne(query, swapped);
    } else {
      forall s ensures !IsSwap(query, s) { }
    }
  }

  lemma SwapIsOne(q: string, swapped: string)
    requires IsSwap(q, swapped)
    ensures forall s | IsSwap(q, s) :: s == swapped
  {
    var k :| PartsAt(q, k) && swapped == q[k..] + q[..k];
    forall s | IsSwap(q, s) ensures s == swapped {
      var j :| PartsAt(q, j) && s == q[j..] + q[..j];
      PartsOnce(q, j, k);
    }
  }

  // ---------------------------------------------------------------- filtering

  /** An item's text and what its tokens score. */
  datatype Scored = Scored(text: string, score: int)

  predicate Better(a: Scored, b: Scored) { a.score <= b.score }

  predicate AllFound(tokens: seq<string>, text: string) {
    forall j | 0 <= j < |tokens| :: IsFound(tokens[j], text)
  }

  predicate IsFound(token: string, text: string) { FuzzyOf(token, text).matches }

  function Total(tokens: seq<string>, text: string, n: nat := |tokens|): int
    requires n <= |tokens|
  {
    Summed(ScoreIn(text), tokens, n)
  }

  function ScoreIn(text: string): string -> int { token => FuzzyOf(token, text).score }

  /** What the first `n` of a list are worth together. */
  function Summed<T>(worth: T -> int, items: seq<T>, n: nat): int
    requires n <= |items|
  {
    if n == 0 then 0 else Summed(worth, items, n - 1) + worth(items[n - 1])
  }

  /** Those of the first `n` items every token is found in, in order, with what the tokens score. */
  function Passing(tokens: seq<string>, items: seq<string>, n: nat := |items|): seq<Scored>
    requires n <= |items|
  {
    Gathered(HitOf(tokens), items, n)
  }

  function HitOf(tokens: seq<string>): string -> seq<Scored> { text => Hit(tokens, text) }

  /** What a function gives for the first `n` of a list, in order. */
  function Gathered<T, U>(give: T -> seq<U>, items: seq<T>, n: nat := |items|): seq<U>
    requires n <= |items|
  {
    if n == 0 then [] else Gathered(give, items, n - 1) + give(items[n - 1])
  }

  /** This item alone with what the tokens score in it, if every token is found. */
  function Hit(tokens: seq<string>, text: string): seq<Scored> {
    if AllFound(tokens, text) then [Scored(text, Total(tokens, text))] else []
  }

  /** This result alone, if it has the score. */
  function IfAt(x: Scored, score: int): seq<Scored> { if x.score == score then [x] else [] }

  /** The results of one score, in order. */
  function AtScore(s: seq<Scored>, score: int): seq<Scored> {
    if s == [] then [] else IfAt(s[0], score) + AtScore(s[1..], score)
  }

  lemma AtScoreFirst(x: Scored, s: seq<Scored>, score: int)
    ensures AtScore([x] + s, score) == IfAt(x, score) + AtScore(s, score)
  {
    assert ([x] + s)[1..] == s;
  }

  lemma EitherFirst(x: Scored, y: Scored, score: int, rest: seq<Scored>)
    requires x.score != y.score
    ensures IfAt(y, score) + (IfAt(x, score) + rest) == IfAt(x, score) + (IfAt(y, score) + rest)
  {
  }

  lemma {:induction false} InsertAtScore(x: Scored, s: seq<Scored>, score: int)
    ensures AtScore(Catalog.Insert(Better, x, s), score) == IfAt(x, score) + AtScore(s, score)
  {
    if s == [] {
      AtScoreFirst(x, [], score);
    } else if Better(x, s[0]) {
      AtScoreFirst(x, s, score);
    } else {
      InsertAtScore(x, s[1..], score);
      AtScoreFirst(s[0], Catalog.Insert(Better, x, s[1..]), score);
      EitherFirst(x, s[0], score, AtScore(s[1..], score));
    }
  }

  /** The sort keeps those of one score, all of them and in the order they came. */
  lemma {:induction false} SortIsStable(s: seq<Scored>, score: int)
    ensures AtScore(Catalog.Sort(Better, s), score) == AtScore(s, score)
  {
    if s != [] {
      SortIsStable(s[1..], score);
      InsertAtScore(s[0], Catalog.Sort(Better, s[1..]), score);
    }
  }

  lemma PassingNext(
    tokens: seq<string>, items: seq<string>, i: nat, before: seq<Scored>, total: int, all: bool, kept: seq<Scored>)
    requires i < |items| && before == Passing(tokens, items, i)
    requires (all <==> AllFound(tokens, items[i])) && (all ==> total == Total(tokens, items[i]))
    requires kept == if all then before + [Scored(items[i], total)] else before
    ensures kept == Passing(tokens, items, i + 1)
  {
    var give, next := HitOf(tokens), Hit(tokens, items[i]);
    assert kept == before + next;
    GatheredNext(give, items, i, before, next);
  }

  lemma GatheredNext<T, U>(give: T -> seq<U>, items: seq<T>, n: nat, before: seq<U>, next: seq<U>)
    requires n < |items| && before == Gathered(give, items, n) && next == give(items[n])
    ensures Gathered(give, items, n + 1) == before + next
  {
  }

  /** What is kept are the items in which every token is found, best scores first and otherwise in the
      order they came. */
  method FuzzyFilter(items: seq<string>, tokens: seq<string>) returns (results: seq<Scored>)
    ensures results == Catalog.Sort(Better, Passing(tokens, items)) && Catalog.Sorted(Better, results)
    ensures forall score :: AtScore(results, score) == AtScore(Passing(tokens, items), score)
  {
    var kept: seq<Scored> := [];
    for i := 0 to |items|
      invariant kept == Passing(tokens, items, i)
    {
      ghost var before := kept;
      var total, all := ScoreAll(tokens, items[i]);
      if all { kept := kept + [Scored(items[i], total)]; }
      PassingNext(tokens, items, i, before, total, all, kept);
    }
    results := Catalog.Sort(Better, kept);
    Catalog.SortSorts(Better, kept);
    forall score ensures AtScore(results, score) == AtScore(kept, score) { SortIsStable(kept, score); }
  }

  /** The first `n` tokens are all found, and score `total`. */
  ghost predicate Scoring(tokens: seq<string>, text: string, n: nat, total: int) {
    n <= |tokens| && total == Total(tokens, text, n) && forall j | 0 <= j < n :: IsFound(tokens[j], text)
  }

  method ScoreAll(tokens: seq<string>, text: string) returns (total: int, all: bool)
    ensures all <==> AllFound(tokens, text)
    ensures all ==> Scoring(tokens, text, |tokens|, total)
  {
    total := 0;
    for j := 0 to |tokens|
      invariant Scoring(tokens, text, j, total)
    {
      total, all := ScoreNext(tokens, text, j, total);
      if !all { return; }
    }
    all := true;
  }

  lemma ScoringMore(tokens: seq<string>, text: string, j: nat, before: int)
    requires j < |tokens| && Scoring(tokens, text, j, before) && IsFound(tokens[j], text)
    ensures Scoring(tokens, text, j + 1, before + FuzzyOf(tokens[j], text).score)
  {
  }

  method ScoreNext(tokens: seq<string>, text: string, j: nat, before: int) returns (total: int, found: bool)
    requires j < |tokens| && Scoring(tokens, text, j, before)
    ensures if found then Scoring(tokens, text, j + 1, total) else !AllFound(tokens, text)
  {
    var m := FuzzyMatch(tokens[j], text);
    if !m.matches {
      assert !IsFound(tokens[j], text);
      return before, false;
    }
    ScoringMore(tokens, text, j, before);
    return before + m.score, true;
  }
}
