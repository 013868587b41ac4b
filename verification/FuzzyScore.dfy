// What a fuzzy score is worth (fuzzy.ts): lower is better, letters nearer and at the start of a word score better,
// and nothing matches a text better than the text itself.

module FuzzyScore {
  import opened Basics
  import opened Fuzzy
  import Catalog

  /** The start of a word. */
  predicate IsStart(text: string, i: nat)
    requires i < |text|
  {
    i == 0 || Boundary(text[i - 1])
  }

  predicate Within(text: string, ps: seq<int>) { forall j | 0 <= j < |ps| :: 0 <= ps[j] < |text| }

  /** What the `k`-th letter adds to the score. */
  function Points(text: string, ps: seq<int>, k: nat): int
    requires 0 < k <= |ps| && Within(text, ps)
  {
    10 * Gap(ps, k) - (if IsStart(text, ps[k - 1]) then 100 else 0) + ps[k - 1]
  }

  lemma LastPoints(text: string, ps: seq<int>, i: nat)
    requires Within(text, ps) && i < |text|
    ensures ScoreTo(text, ps + [i], |ps| + 1) == ScoreTo(text, ps, |ps|) + Points(text, ps + [i], |ps| + 1)
  {
    ScorePrefix(text, ps, ps + [i], |ps|);
  }

  /** What the distance of a letter from the one before adds: nothing is better than to follow it, and the more
      so the more letters did. */
  lemma LastGap(text: string, ps: seq<int>, i: nat)
    requires Within(text, ps) && Before(ps, |ps|) < i < |text|
    ensures var gap, last := Gap(ps + [i], |ps| + 1), Before(ps, |ps|);
      && (i == last + 1 ==> gap == -5 * (InARow(ps, |ps|) + 1))
      && (i > last + 1 ==> gap == if ps == [] then 0 else 2 * (i - last - 1))
  {
    ScorePrefix(text, ps, ps + [i], |ps|);
    assert Before(ps + [i], |ps|) == Before(ps, |ps|);
  }

  /** A letter found nearer to the one before scores better than one farther off, unless only the farther one
      starts a word. */
  lemma NearerIsBetter(text: string, ps: seq<int>, i: nat, j: nat)
    requires Within(text, ps) && Before(ps, |ps|) < i < j < |text|
    requires IsStart(text, i) || !IsStart(text, j)
    ensures ScoreTo(text, ps + [i], |ps| + 1) < ScoreTo(text, ps + [j], |ps| + 1)
  {
    LastGap(text, ps, i);
    LastGap(text, ps, j);
    LastPoints(text, ps, i);
    LastPoints(text, ps, j);
  }

  /** The same place at the start of a word scores ten points better. */
  lemma StartIsBetter(text: string, other: string, ps: seq<int>, i: nat)
    requires Within(text, ps) && Within(other, ps) && i < |text| && i < |other|
    requires ScoreTo(text, ps, |ps|) == ScoreTo(other, ps, |ps|) && IsStart(text, i) && !IsStart(other, i)
    ensures ScoreTo(text, ps + [i], |ps| + 1) == ScoreTo(other, ps + [i], |ps| + 1) - 100
  {
    LastPoints(text, ps, i);
    LastPoints(other, ps, i);
  }

  // ---------------------------------------------------------------- the text itself

  /** A text's own places in itself. */
  function Own(n: nat): (ps: seq<int>)
    ensures |ps| == n && forall i | 0 <= i < n :: ps[i] == i
  {
    seq(n, i => i)
  }

  lemma {:induction false} OwnInARow(n: nat, k: nat)
    requires k <= n
    ensures InARow(Own(n), k) == k
  {
    if k > 0 { OwnInARow(n, k - 1); }
  }

  lemma {:induction false} AtMostInARow(ps: seq<int>, k: nat)
    requires k <= |ps|
    ensures InARow(ps, k) <= k
  {
    if k > 0 { AtMostInARow(ps, k - 1); }
  }

  lemma {:induction false} PlacesAreLate(query: string, text: string, ps: seq<int>, j: nat)
    requires Embeds(query, text, ps) && j < |ps|
    ensures ps[j] >= j
  {
    if j > 0 { PlacesAreLate(query, text, ps, j - 1); }
  }

  lemma OwnEmbeds(query: string)
    ensures Embeds(query, query, Own(|query|)) && Subsequence(query, query)
  {
    assert Embeds(query, query, Own(|query|));
  }

  lemma GreedyIsOwn(query: string, ps: seq<int>)
    requires Greedy(query, query, ps) && |ps| == |query|
    ensures ps == Own(|query|)
  {
    OwnEmbeds(query);
    forall j | 0 <= j < |ps| ensures ps[j] == j {
      GreedyIsLeftmost(query, query, ps, Own(|query|), j);
      PlacesAreLate(query, query, ps, j);
    }
  }

  lemma OwnPlaces(query: string)
    ensures Places(query, query) == Own(|query|)
  {
    OwnEmbeds(query);
    AllPlaced(query, query);
    PlacesAreGreedy(query, query, |query|);
    GreedyIsOwn(query, Places(query, query));
  }

  /** Every letter of a query that is in a text is given a place. */
  lemma AllPlaced(query: string, text: string)
    requires Subsequence(query, text)
    ensures |Places(query, text)| == |query|
  {
    MatchesExactly(query, text);
  }

  /** Letter by letter, no other place does better than a letter's own. */
  lemma OwnPointsAreBest(query: string, text: string, ps: seq<int>, k: nat)
    requires Embeds(query, text, ps) && 0 < k <= |ps| == |query|
    ensures Points(query, Own(|query|), k) <= Points(text, ps, k)
  {
    var own := Own(|query|);
    OwnInARow(|query|, k);
    AtMostInARow(ps, k);
    PlacesAreLate(query, text, ps, k - 1);
    assert Gap(own, k) == -5 * k;
    if Before(ps, k - 1) == ps[k - 1] - 1 && k > 1 {
      assert text[ps[k - 1] - 1] == query[k - 2];
    }
  }

  lemma {:induction false} OwnScoreIsBest(query: string, text: string, ps: seq<int>, k: nat)
    requires Embeds(query, text, ps) && k <= |ps| == |query|
    ensures ScoreTo(query, Own(|query|), k) <= ScoreTo(text, ps, k)
  {
    if k > 0 {
      OwnScoreIsBest(query, text, ps, k - 1);
      OwnPointsAreBest(query, text, ps, k);
      assert ScoreTo(text, ps, k) == ScoreTo(text, ps, k - 1) + Points(text, ps, k);
      assert ScoreTo(query, Own(|query|), k) == ScoreTo(query, Own(|query|), k - 1) + Points(query, Own(|query|), k);
    }
  }

  /** Main result on scores: of all texts a query is in, none scores better than the query itself, and any
      other at least a hundred points worse. */
  lemma ExactIsBest(query: string, text: string)
    requires query != "" && text != query && MatchOf(query, text).matches
    ensures MatchOf(query, query).matches && MatchOf(query, query).score + 1000 <= MatchOf(query, text).score
  {
    OwnPlaces(query);
    PlacesAreGreedy(query, text, |text|);
    OwnScoreIsBest(query, text, Places(query, text), |query|);
  }

  /** Nothing to look for is found everywhere, and what is not found scores nothing. */
  lemma NothingScoresNothing(query: string, text: string)
    ensures query == "" ==> FuzzyOf(query, text) == Match(true, 0)
    ensures !FuzzyOf(query, text).matches ==> FuzzyOf(query, text).score == 0
  {
  }

  lemma {:induction false} PlainScore(q: string, k: nat)
    requires IsPlain(q) && k <= |q|
    ensures 2 * ScoreTo(q, Own(|q|), k) == (if k > 0 then -200 else 0) - 50 * (k * (k + 1)) + k * (k - 1)
  {
    if k > 0 {
      PlainScore(q, k - 1);
      OwnInARow(|q|, k);
      assert k * (k + 1) == (k - 1) * k + 2 * k && k * (k - 1) == (k - 1) * (k - 2) + 2 * (k - 1);
    }
  }

  /** What a text of `n` letters and digits scores in itself: a hundred points for being all of the text, ten for
      the start, five, ten, fifteen and so on for its letters in a row, less a tenth for each place. */
  lemma ExactScore(q: string)
    requires IsPlain(q) && q != ""
    ensures var n := |q|; 2 * FuzzyOf(q, q).score == -2000 - 200 - 50 * (n * (n + 1)) + n * (n - 1)
  {
    OwnPlaces(q);
    PlainScore(q, |q|);
  }

  // ---------------------------------------------------------------- and with letters and digits exchanged

  predicate IsPlain(q: string) { forall i | 0 <= i < |q| :: !Boundary(q[i]) }

  lemma PartsArePlain(q: string, k: int)
    requires PartsAt(q, k)
    ensures IsPlain(q) && IsPlain(q[k..] + q[..k])
  {
    forall i | 0 <= i < |q| ensures Letter(q[i]) || Digit(q[i]) {
      if i < k { assert q[..k][i] == q[i]; } else { assert q[k..][i - k] == q[i]; }
    }
    var swapped := q[k..] + q[..k];
    forall i | 0 <= i < |swapped| ensures Letter(swapped[i]) || Digit(swapped[i]) {
      assert swapped[i] == if i < |q| - k then q[i + k] else q[i - (|q| - k)];
    }
  }

  /** Without boundaries in them, texts of one length score in themselves alike. */
  lemma {:induction false} PlainScoresAlike(q: string, r: string, k: nat)
    requires IsPlain(q) && IsPlain(r) && |q| == |r| && k <= |q|
    ensures ScoreTo(q, Own(|q|), k) == ScoreTo(r, Own(|q|), k)
  {
    if k > 0 { PlainScoresAlike(q, r, k - 1); }
  }

  /** So the query is the best of all the texts it matches in any way. */
  lemma QueryIsBest(query: string, text: string)
    requires query != "" && text != query && FuzzyOf(query, text).matches
    ensures FuzzyOf(query, query).matches && FuzzyOf(query, query).score < FuzzyOf(query, text).score
  {
    OwnPlaces(query);
    if MatchOf(query, text).matches {
      ExactIsBest(query, text);
    } else {
      ExchangedIsWorse(query, text);
    }
  }

  lemma ExchangedIsWorse(query: string, text: string)
    requires query != "" && !MatchOf(query, text).matches && Swap(query) != "" && MatchOf(Swap(query), text).matches
    ensures MatchOf(query, query).score < MatchOf(Swap(query), text).score + 50
  {
    var swapped := Swap(query);
    SwapExactly(query);
    var k :| PartsAt(query, k) && swapped == query[k..] + query[..k];
    PartsArePlain(query, k);
    OwnPlaces(query);
    OwnPlaces(swapped);
    PlainScoresAlike(query, swapped, |query|);
    if text != swapped { ExactIsBest(swapped, text); }
  }

  /** Of a text as long as the query, only the query itself has all the letters in order. */
  lemma SameLength(query: string, text: string)
    requires |query| == |text| && Subsequence(query, text)
    ensures query == text
  {
    var ps: seq<int> :| |ps| == |query| && Embeds(query, text, ps);
    forall j | 0 <= j < |query| ensures query[j] == text[j] {
      PlacesAreLate(query, text, ps, j);
      PlacesAreEarly(query, text, ps, j);
      assert ps[j] == j;
    }
  }

  lemma {:induction false} PlacesAreEarly(query: string, text: string, ps: seq<int>, j: nat)
    requires Embeds(query, text, ps) && j < |ps|
    ensures ps[j] + (|ps| - j) <= |text|
    decreases |ps| - j
  {
    if j + 1 < |ps| { PlacesAreEarly(query, text, ps, j + 1); }
  }

  lemma ExchangeIsAnother(query: string, k: int)
    requires PartsAt(query, k)
    ensures !MatchOf(query, query[k..] + query[..k]).matches
  {
    var swapped := query[k..] + query[..k];
    assert query[..k][0] == query[0] && query[k..][0] == query[k] == swapped[0];
    assert query != swapped;
    if Subsequence(query, swapped) { SameLength(query, swapped); }
    MatchesExactly(query, swapped);
  }

  lemma OwnScores(query: string)
    requires query != ""
    ensures MatchOf(query, query) == Match(true, ScoreTo(query, Own(|query|), |query|) - 1000)
  {
    OwnPlaces(query);
  }

  /** A text with letters and digits exchanged scores five worse than the query itself. */
  lemma ExchangeScores(query: string)
    requires Swap(query) != ""
    ensures FuzzyOf(query, Swap(query)) == Match(true, FuzzyOf(query, query).score + 50)
  {
    var swapped := Swap(query);
    SwapExactly(query);
    var k :| PartsAt(query, k) && swapped == query[k..] + query[..k];
    PartsArePlain(query, k);
    ExchangeIsAnother(query, k);
    OwnScores(query);
    OwnScores(swapped);
    PlainScoresAlike(query, swapped, |query|);
  }

  // ---------------------------------------------------------------- filtering

  /** What each token scores in a text. */
  function Scores(tokens: seq<string>, text: string): (scores: seq<int>)
    ensures |scores| == |tokens|
    ensures forall i | 0 <= i < |tokens| :: scores[i] == FuzzyOf(tokens[i], text).score
  {
    seq(|tokens|, i requires 0 <= i < |tokens| => FuzzyOf(tokens[i], text).score)
  }

  function Sum(scores: seq<int>): int { if scores == [] then 0 else scores[0] + Sum(scores[1..]) }

  lemma {:induction false} SumAppend(scores: seq<int>, score: int)
    ensures Sum(scores + [score]) == Sum(scores) + score
  {
    if scores == [] {
      assert [] + [score] == [score] && [score][1..] == [];
    } else {
      assert (scores + [score])[1..] == scores[1..] + [score];
      SumAppend(scores[1..], score);
    }
  }

  lemma {:induction false} SummedIsSum<T>(worth: T -> int, items: seq<T>, scores: seq<int>, n: nat)
    requires |scores| == |items| && forall i | 0 <= i < |items| :: scores[i] == worth(items[i])
    requires n <= |items|
    ensures Summed(worth, items, n) == Sum(scores[..n])
  {
    if n > 0 {
      SummedIsSum(worth, items, scores, n - 1);
      assert scores[..n] == scores[..n - 1] + [scores[n - 1]];
      SumAppend(scores[..n - 1], scores[n - 1]);
    }
  }

  /** A text's total is the sum of what each token scores in it. */
  lemma TotalIsSum(tokens: seq<string>, text: string)
    ensures Total(tokens, text) == Sum(Scores(tokens, text))
  {
    var scores := Scores(tokens, text);
    SummedIsSum(ScoreIn(text), tokens, scores, |tokens|);
    assert scores[..|tokens|] == scores;
  }

  /** A text in which every token is found, with what they score. */
  ghost predicate IsHit(tokens: seq<string>, x: Scored) {
    && (forall token | token in tokens :: FuzzyOf(token, x.text).matches)
    && x.score == Sum(Scores(tokens, x.text))
  }

  lemma HitOccurs(tokens: seq<string>, text: string, x: Scored)
    ensures Catalog.Occurs(Hit(tokens, text), x) == if IsHit(tokens, x) && x.text == text then 1 else 0
  {
    HitExactly(tokens, text);
    var hit := Scored(text, Total(tokens, text));
    assert Catalog.Occurs([], x) == 0;
    assert [hit][1..] == [] && Catalog.Occurs([hit], x) == if hit == x then 1 else 0;
  }

  lemma OneOccurs<T>(y: T, x: T)
    ensures Catalog.Occurs([y], x) == if y == x then 1 else 0
  {
    assert [y][1..] == [] && Catalog.Occurs([], x) == 0;
  }

  /** The share of a list a thing is given: as often as its item is there, or never. */
  function Share(hit: bool, n: nat): nat { if hit then n else 0 }

  lemma OneMoreGiven<T, U>(
    items: seq<T>, next: T, item: T, given: seq<U>, more: seq<U>, x: U, hit: bool)
    requires Catalog.Occurs(given, x) == Share(hit, Catalog.Occurs(items, item))
    requires Catalog.Occurs(more, x) == Share(hit, if next == item then 1 else 0)
    ensures Catalog.Occurs(given + more, x) == Share(hit, Catalog.Occurs(items + [next], item))
  {
    Catalog.OccursAppend(items, [next], item);
    OneOccurs(next, item);
    Catalog.OccursAppend(given, more, x);
  }

  /** A thing given only for one item, and once, is given as often as the item is there. */
  lemma {:induction false} GatheredOccurs<T, U>(
    give: T -> seq<U>, items: seq<T>, item: T, x: U, hit: bool, n: nat)
    requires n <= |items|
    requires forall next :: Catalog.Occurs(give(next), x) == Share(hit, if next == item then 1 else 0)
    ensures Catalog.Occurs(Gathered(give, items, n), x) == Share(hit, Catalog.Occurs(items[..n], item))
  {
    if n > 0 {
      GatheredOccurs(give, items, item, x, hit, n - 1);
      assert items[..n] == items[..n - 1] + [items[n - 1]];
      OneMoreGiven(
        items[..n - 1], items[n - 1], item, Gathered(give, items, n - 1), give(items[n - 1]), x, hit);
    }
  }

  /** What passes is every item that is a hit, as often as it is there, and nothing else. */
  lemma PassingExactly(tokens: seq<string>, items: seq<string>, x: Scored)
    ensures Catalog.Occurs(Passing(tokens, items), x) ==
      if IsHit(tokens, x) then Catalog.Occurs(items, x.text) else 0
  {
    var give, hit := HitOf(tokens), IsHit(tokens, x);
    forall text ensures Catalog.Occurs(give(text), x) == Share(hit, if text == x.text then 1 else 0) {
      HitOccurs(tokens, text, x);
    }
    GatheredOccurs(give, items, x.text, x, hit, |items|);
    assert items[..|items|] == items;
  }

  lemma HitExactly(tokens: seq<string>, text: string)
    ensures AllFound(tokens, text) <==> forall token | token in tokens :: FuzzyOf(token, text).matches
    ensures Total(tokens, text) == Sum(Scores(tokens, text))
  {
    TotalIsSum(tokens, text);
    forall j | 0 <= j < |tokens| ensures IsFound(tokens[j], text) <==> FuzzyOf(tokens[j], text).matches { }
  }

  lemma Regrouped<T>(a: seq<T>, b: seq<T>, c: seq<T>)
    ensures a + b + c == a + (b + c)
  {
  }

  lemma {:induction false} GatheredPrefix<T, U>(give: T -> seq<U>, a: seq<T>, whole: seq<T>, n: nat)
    requires n <= |a| && a <= whole
    ensures Gathered(give, whole, n) == Gathered(give, a, n)
  {
    if n > 0 { GatheredPrefix(give, a, whole, n - 1); }
  }

  lemma {:induction false} GatheredInOrder<T, U>(
    give: T -> seq<U>, a: seq<T>, b: seq<T>, whole: seq<T>, n: nat)
    requires whole == a + b && n <= |b|
    ensures Gathered(give, whole, |a| + n) == Gathered(give, a) + Gathered(give, b, n)
  {
    if n == 0 {
      GatheredPrefix(give, a, whole, |a|);
    } else {
      GatheredInOrder(give, a, b, whole, n - 1);
      assert whole[|a| + n - 1] == b[n - 1];
      Regrouped(Gathered(give, a), Gathered(give, b, n - 1), give(b[n - 1]));
    }
  }

  /** In the order they came: what is given for two lists one behind the other. */
  lemma GatheredAppend<T, U>(give: T -> seq<U>, a: seq<T>, b: seq<T>)
    ensures Gathered(give, a + b) == Gathered(give, a) + Gathered(give, b)
  {
    GatheredInOrder(give, a, b, a + b, |b|);
  }

  /** Main result on filtering: the results are the hits among the items, each as often as its item is there,
      best scores first. */
  lemma FilterExactly(tokens: seq<string>, items: seq<string>, results: seq<Scored>)
    requires results == Catalog.Sort(Better, Passing(tokens, items))
    ensures forall i, j | 0 <= i < j < |results| :: results[i].score <= results[j].score
    ensures forall x :: Catalog.Occurs(results, x) == if IsHit(tokens, x) then Catalog.Occurs(items, x.text) else 0
  {
    Catalog.SortSorts(Better, Passing(tokens, items));
    forall i, j | 0 <= i < j < |results| ensures results[i].score <= results[j].score {
      assert Better(results[i], results[j]);
    }
    forall x ensures Catalog.Occurs(results, x) == if IsHit(tokens, x) then Catalog.Occurs(items, x.text) else 0 {
      Catalog.SortOccurs(Better, Passing(tokens, items), x);
      PassingExactly(tokens, items, x);
    }
  }
}
