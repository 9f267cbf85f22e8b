/** The studio sidebar: the training cards related to the conversation so far, found by keyword
    hits, and the catalog grouped by category. */
module StudioSidebar {
  import opened Seqs
  import opened Strings
  import opened Ordering

  /** A catalog card, reduced to what the sidebar reads. */
  datatype StudioCard = StudioCard(
    id: string,
    title: string,
    description: string,
    category: string,
    keywords: seq<string>)

  /** `STUDIO_CARDS`. */
  const StudioCards: seq<StudioCard> := [
    StudioCard("beginner-fundamentals", "Beginner Fundamentals",
      "4-week program to master tennis basics", "training",
      ["beginner", "start", "learn", "basics", "fundamentals", "new"]),
    StudioCard("serve-improvement", "Serve Improvement Program",
      "2-week intensive to boost your serve power and accuracy", "training",
      ["serve", "serving", "power", "ace", "toss", "speed"]),
    StudioCard("footwork-agility", "Footwork & Agility",
      "Improve court coverage and reaction time", "training",
      ["footwork", "movement", "agility", "speed", "quick", "court coverage", "running"]),
    StudioCard("match-preparation", "Match Day Preparation",
      "Mental and physical prep for competitive play", "training",
      ["match", "competition", "tournament", "nervous", "mental", "prepare"]),
    StudioCard("topspin-forehand", "Topspin Forehand",
      "Generate heavy topspin for consistent groundstrokes", "technique",
      ["forehand", "topspin", "spin", "groundstroke", "drive"]),
    StudioCard("slice-backhand", "Slice Backhand",
      "Defensive and offensive slice techniques", "technique",
      ["backhand", "slice", "underspin", "defensive", "approach"]),
    StudioCard("kick-serve", "Kick Serve",
      "High-bouncing second serve that kicks away from opponents", "technique",
      ["serve", "kick", "second serve", "spin", "topspin serve"]),
    StudioCard("ball-machine-basics", "Ball Machine Basics",
      "How to set up and use the ball machine effectively", "ball-machine",
      ["ball machine", "machine", "setup", "settings", "how to"]),
    StudioCard("ball-machine-drills", "Ball Machine Drills",
      "Effective solo practice routines with the ball machine", "ball-machine",
      ["drill", "practice", "solo", "machine", "routine", "alone"])]

  function CardId(card: StudioCard): string {
    card.id
  }

  function CardCategory(card: StudioCard): string {
    card.category
  }

  /** The catalog's ids are pairwise different. */
  lemma StudioCardIdsDistinct()
    ensures DistinctBy(StudioCards, CardId)
  {
    forall i, j | 0 <= i < j < |StudioCards|
      ensures StudioCards[i].id != StudioCards[j].id
    {
      var a, b := StudioCards[i].id, StudioCards[j].id;
      assert a[0] != b[0] || |a| != |b| || a[13] != b[13];
    }
  }

  /** `lowerText.includes(keyword.toLowerCase())`. */
  predicate KeywordHit(lowerText: string, keyword: string) {
    Contains(lowerText, ToLower(keyword))
  }

  /** A card's score: the number of its keywords found in the lower-cased text. It is zero
      exactly when no keyword is found, and the number of keywords exactly when all are. */
  function Score(keywords: seq<string>, lowerText: string): (n: nat)
    ensures n <= |keywords|
    ensures n == 0 <==> forall k :: 0 <= k < |keywords| ==> !KeywordHit(lowerText, keywords[k])
    ensures n == |keywords| <==> forall k :: 0 <= k < |keywords| ==> KeywordHit(lowerText, keywords[k])
    decreases |keywords|
  {
    if keywords == [] then 0
    else
      var init := keywords[..|keywords| - 1];
      assert forall k :: 0 <= k < |init| ==> init[k] == keywords[k];
      Score(init, lowerText) + (if KeywordHit(lowerText, keywords[|keywords| - 1]) then 1 else 0)
  }

  /** One entry of `matches`. */
  datatype Match = Match(card: StudioCard, score: int)

  function MatchScore(m: Match): int {
    m.score
  }

  function MatchId(m: Match): string {
    m.card.id
  }

  /** The `matches` array: every catalog card with a positive score, with that score, in
      catalog order (`MatchesSpec` states what it holds). */
  function Matches(catalog: seq<StudioCard>, lowerText: string): (r: seq<Match>)
    ensures |r| <= |catalog|
    decreases |catalog|
  {
    if catalog == [] then []
    else
      var init, card := catalog[..|catalog| - 1], catalog[|catalog| - 1];
      var score := Score(card.keywords, lowerText);
      Matches(init, lowerText) + (if score > 0 then [Match(card, score)] else [])
  }

  /** Every match is a catalog card with its positive score, and every catalog card with a
      positive score is matched with that score. */
  lemma {:induction false} MatchesSpec(catalog: seq<StudioCard>, lowerText: string)
    ensures forall i :: 0 <= i < |Matches(catalog, lowerText)| ==>
      Matches(catalog, lowerText)[i].card in catalog && Matches(catalog, lowerText)[i].score > 0 &&
      Matches(catalog, lowerText)[i].score == Score(Matches(catalog, lowerText)[i].card.keywords, lowerText)
    ensures forall i :: 0 <= i < |catalog| && Score(catalog[i].keywords, lowerText) > 0 ==>
      Match(catalog[i], Score(catalog[i].keywords, lowerText)) in Matches(catalog, lowerText)
    decreases |catalog|
  {
    if catalog != [] {
      var init, card := catalog[..|catalog| - 1], catalog[|catalog| - 1];
      MatchesSpec(init, lowerText);
      var ms, r := Matches(init, lowerText), Matches(catalog, lowerText);
      var score := Score(card.keywords, lowerText);
      var tail := if score > 0 then [Match(card, score)] else [];
      assert r == ms + tail;
      forall i | 0 <= i < |r|
        ensures r[i].card in catalog && r[i].score > 0 && r[i].score == Score(r[i].card.keywords, lowerText)
      {
        if i < |ms| {
          var k :| 0 <= k < |init| && init[k] == ms[i].card;
          assert catalog[k] == init[k];
        }
      }
      forall i | 0 <= i < |catalog| && Score(catalog[i].keywords, lowerText) > 0
        ensures Match(catalog[i], Score(catalog[i].keywords, lowerText)) in r
      {
        if i < |init| {
          assert init[i] == catalog[i];
        }
      }
    }
  }

  /** Matches of a catalog with distinct ids have distinct ids. */
  lemma {:induction false} MatchesDistinct(catalog: seq<StudioCard>, lowerText: string)
    requires DistinctBy(catalog, CardId)
    ensures DistinctBy(Matches(catalog, lowerText), MatchId)
    decreases |catalog|
  {
    if catalog != [] {
      var init, card := catalog[..|catalog| - 1], catalog[|catalog| - 1];
      forall i, j | 0 <= i < j < |init|
        ensures init[i].id != init[j].id
      {
        assert init[i] == catalog[i] && init[j] == catalog[j];
      }
      MatchesDistinct(init, lowerText);
      MatchesSpec(init, lowerText);
      var ms := Matches(init, lowerText);
      var score := Score(card.keywords, lowerText);
      if score > 0 {
        forall i | 0 <= i < |ms|
          ensures MatchId(ms[i]) != MatchId(Match(card, score))
        {
          var k :| 0 <= k < |init| && init[k] == ms[i].card;
          assert catalog[k] == init[k];
        }
        DistinctBySnoc(ms, Match(card, score), MatchId);
      }
    }
  }

  /** The contextual matches: none for an empty text; otherwise the first three of the matches
      stably sorted by descending score. */
  function TopMatches(catalog: seq<StudioCard>, text: string): (r: seq<Match>)
    ensures |r| <= 3
    ensures text == [] ==> r == []
    ensures text != [] ==> |r| == if |Matches(catalog, ToLower(text))| < 3 then |Matches(catalog, ToLower(text))| else 3
  {
    if text == [] then []
    else
      var ms := Matches(catalog, ToLower(text));
      var sorted := SortDesc(ms, MatchScore);
      assert |sorted| == |multiset(sorted)| == |multiset(ms)| == |ms|;
      Take(sorted, 3)
  }

  /** `.map((m) => m.card)`. */
  function CardsOf(ms: seq<Match>): (r: seq<StudioCard>)
    ensures |r| == |ms| && forall i :: 0 <= i < |ms| ==> r[i] == ms[i].card
  {
    seq(|ms|, i requires 0 <= i < |ms| => ms[i].card)
  }

  /** The inner `forEach` of `contextualCards`: one point for every keyword found. */
  method CardScore(keywords: seq<string>, lowerText: string) returns (score: nat)
    ensures score == Score(keywords, lowerText)
  {
    score := 0;
    for j := 0 to |keywords|
      invariant score == Score(keywords[..j], lowerText)
    {
      assert keywords[..j + 1][..j] == keywords[..j];
      if Contains(lowerText, ToLower(keywords[j])) {
        score := score + 1;
      }
    }
    assert keywords[..|keywords|] == keywords;
  }

  /** `contextualCards`: scores each catalog card by the keywords found in the lower-cased
      conversation text, keeps the positive scores, stably sorts them by descending score and
      keeps the first three cards. */
  method ContextualCards(catalog: seq<StudioCard>, text: string) returns (cards: seq<StudioCard>)
    ensures cards == CardsOf(TopMatches(catalog, text))
  {
    if text == [] {
      return [];
    }
    var lowerText := ToLower(text);
    var matches: seq<Match> := [];
    for i := 0 to |catalog|
      invariant matches == Matches(catalog[..i], lowerText)
    {
      var card := catalog[i];
      var score := CardScore(card.keywords, lowerText);
      assert catalog[..i + 1][..i] == catalog[..i];
      assert catalog[..i + 1][i] == card;
      if score > 0 {
        matches := matches + [Match(card, score)];
      }
    }
    assert catalog[..|catalog|] == catalog;
    cards := CardsOf(Take(SortDesc(matches, MatchScore), 3));
  }

  /** What the contextual cards are: cards of the catalog with a positive score, shown with
      that score, in non-increasing score order. */
  lemma TopMatchesSound(catalog: seq<StudioCard>, text: string)
    ensures forall i :: 0 <= i < |TopMatches(catalog, text)| ==>
      TopMatches(catalog, text)[i].card in catalog && TopMatches(catalog, text)[i].score > 0 &&
      TopMatches(catalog, text)[i].score == Score(TopMatches(catalog, text)[i].card.keywords, ToLower(text))
    ensures NonIncreasing(TopMatches(catalog, text), MatchScore)
  {
    if text != [] {
      var ms := Matches(catalog, ToLower(text));
      var sorted := SortDesc(ms, MatchScore);
      SortDescSorted(ms, MatchScore);
      MatchesSpec(catalog, ToLower(text));
      forall i | 0 <= i < |TopMatches(catalog, text)|
        ensures TopMatches(catalog, text)[i] in ms
      {
        assert TopMatches(catalog, text)[i] == sorted[i];
        assert sorted[i] in multiset(ms);
      }
    }
  }

  /** A filter of a prefix is a prefix of the filter. */
  lemma FilterByPrefix<T, K>(a: seq<T>, b: seq<T>, key: T -> K, v: K)
    requires a <= b
    ensures FilterBy(a, key, v) <= FilterBy(b, key, v)
  {
    assert b == a + b[|a|..];
    FilterByAppend(a, b[|a|..], key, v);
  }

  /** Ties keep catalog order: the contextual matches with any one score are the first matches
      with that score, in catalog order. */
  lemma TopMatchesTiesInCatalogOrder(catalog: seq<StudioCard>, text: string, score: int)
    requires text != []
    ensures FilterBy(TopMatches(catalog, text), MatchScore, score) <= FilterBy(Matches(catalog, ToLower(text)), MatchScore, score)
  {
    var ms := Matches(catalog, ToLower(text));
    SortDescStable(ms, MatchScore, score);
    FilterByPrefix(TopMatches(catalog, text), SortDesc(ms, MatchScore), MatchScore, score);
  }

  /** No match left out scores higher than a match kept. */
  lemma TopMatchesDominate(catalog: seq<StudioCard>, text: string, m: Match, i: nat)
    requires text != []
    requires m in Matches(catalog, ToLower(text)) && m !in TopMatches(catalog, text)
    requires i < |TopMatches(catalog, text)|
    ensures TopMatches(catalog, text)[i].score >= m.score
  {
    var ms := Matches(catalog, ToLower(text));
    var sorted := SortDesc(ms, MatchScore);
    assert TopMatches(catalog, text) == Take(sorted, 3);
    SortDescSorted(ms, MatchScore);
    assert m in multiset(sorted);
    TakeDominates(sorted, MatchScore, 3, m, i);
  }

  /** No card is offered twice, provided the catalog's ids are distinct, as they are in
      `StudioCards`. */
  lemma TopMatchesDistinct(catalog: seq<StudioCard>, text: string)
    requires DistinctBy(catalog, CardId)
    ensures forall i, j :: 0 <= i < j < |TopMatches(catalog, text)| ==>
      CardsOf(TopMatches(catalog, text))[i].id != CardsOf(TopMatches(catalog, text))[j].id
  {
    if text != [] {
      var ms := Matches(catalog, ToLower(text));
      MatchesDistinct(catalog, ToLower(text));
      SortDescDistinct(ms, MatchScore, MatchId);
    }
  }

  /** The categories in order of first appearance. Each appears once, every card's category is
      among them, each belongs to some card, and a category is listed before another exactly
      when one of its cards comes before every card of the other. */
  function Categories(catalog: seq<StudioCard>): (r: seq<string>)
    ensures forall i, j :: 0 <= i < j < |r| ==> r[i] != r[j]
    ensures forall i :: 0 <= i < |catalog| ==> catalog[i].category in r
    decreases |catalog|
  {
    if catalog == [] then []
    else
      var init, card := catalog[..|catalog| - 1], catalog[|catalog| - 1];
      var before := Categories(init);
      assert forall i :: 0 <= i < |init| ==> init[i] == catalog[i];
      if card.category in before then before else before + [card.category]
  }

  /** Each listed category belongs to some card. */
  lemma {:induction false} CategoriesFromCards(catalog: seq<StudioCard>)
    ensures forall j :: 0 <= j < |Categories(catalog)| ==>
      exists i :: 0 <= i < |catalog| && catalog[i].category == Categories(catalog)[j]
    decreases |catalog|
  {
    if catalog == [] {
      assert Categories(catalog) == [];
    } else {
      var init, card := catalog[..|catalog| - 1], catalog[|catalog| - 1];
      CategoriesFromCards(init);
      var before, r := Categories(init), Categories(catalog);
      assert r == if card.category in before then before else before + [card.category];
      forall j | 0 <= j < |r|
        ensures exists i :: 0 <= i < |catalog| && catalog[i].category == r[j]
      {
        if j == |before| {
          assert catalog[|catalog| - 1].category == r[j];
        } else {
          var i :| 0 <= i < |init| && init[i].category == before[j];
          assert catalog[i] == init[i];
        }
      }
    }
  }

  /** The categories of any leading part of the catalog are a prefix of the categories of the
      whole: the list only grows at its end, so categories are listed in the order in which
      their first cards appear. */
  lemma {:induction false} CategoriesFirstAppearance(catalog: seq<StudioCard>, n: nat)
    requires n <= |catalog|
    ensures Categories(catalog[..n]) <= Categories(catalog)
    decreases |catalog|
  {
    if n < |catalog| {
      var init := catalog[..|catalog| - 1];
      assert catalog[..n] == init[..n];
      CategoriesFirstAppearance(init, n);
      var before := Categories(init);
      assert Categories(catalog) == if catalog[|catalog| - 1].category in before then before else before + [catalog[|catalog| - 1].category];
    } else {
      assert catalog[..n] == catalog;
    }
  }

  lemma CategoriesTakeStep(catalog: seq<StudioCard>, i: nat)
    requires i < |catalog|
    ensures Categories(catalog[..i + 1]) ==
      if catalog[i].category in Categories(catalog[..i]) then Categories(catalog[..i])
      else Categories(catalog[..i]) + [catalog[i].category]
  {
    assert catalog[..i + 1][..i] == catalog[..i];
  }

  /** One rendered group: a category and its cards. */
  datatype CategoryGroup = CategoryGroup(category: string, cards: seq<StudioCard>)

  /** `cardsByCategory`: a record from category to cards, filled in catalog order, together
      with the order in which its keys were first added. */
  method GroupByCategory(catalog: seq<StudioCard>) returns (grouped: map<string, seq<StudioCard>>, order: seq<string>)
    ensures order == Categories(catalog)
    ensures forall c :: c in grouped <==> c in order
    ensures forall c :: c in grouped ==> grouped[c] == FilterBy(catalog, CardCategory, c)
  {
    grouped := map[];
    order := [];
    for i := 0 to |catalog|
      invariant order == Categories(catalog[..i])
      invariant forall c :: c in grouped <==> c in order
      invariant forall c :: c in grouped ==> grouped[c] == FilterBy(catalog[..i], CardCategory, c)
    {
      var card := catalog[i];
      CategoriesTakeStep(catalog, i);
      if card.category !in grouped {
        NoneWithKey(catalog[..i], CardCategory, card.category);
        grouped := grouped[card.category := []];
        order := order + [card.category];
      }
      grouped := grouped[card.category := grouped[card.category] + [card]];
      forall c | c in grouped
        ensures grouped[c] == FilterBy(catalog[..i + 1], CardCategory, c)
      {
        FilterByTakeStep(catalog, i, CardCategory, c);
      }
    }
    assert catalog[..|catalog|] == catalog;
  }

  /** The rendering of the record through `Object.entries`: the groups in the order their
      categories first appear, each holding exactly the cards of its category in catalog
      order. */
  method CardsByCategory(catalog: seq<StudioCard>) returns (groups: seq<CategoryGroup>)
    ensures |groups| == |Categories(catalog)|
    ensures forall j :: 0 <= j < |groups| ==>
      groups[j].category == Categories(catalog)[j] &&
      groups[j].cards == FilterBy(catalog, CardCategory, groups[j].category)
  {
    var grouped, order := GroupByCategory(catalog);
    groups := [];
    for j := 0 to |order|
      invariant |groups| == j
      invariant forall k :: 0 <= k < j ==>
        groups[k].category == order[k] && groups[k].cards == FilterBy(catalog, CardCategory, order[k])
    {
      groups := groups + [CategoryGroup(order[j], grouped[order[j]])];
    }
  }
}
