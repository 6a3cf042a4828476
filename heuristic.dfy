/** The weighted keyword fallback of `predict_category`: every category is
    scored by the summed weights of its matching keywords, the first category
    with the strictly highest positive score wins, and the confidence grows
    linearly with the winning score between 0.5 and 0.95. */
module Heuristic {
  import opened AsciiText
  import opened Matching
  import opened Taxonomy
  import opened SkillExtraction

  /** What `predict_category` returns. */
  datatype Prediction = Prediction(category: string, confidence: real, skills: seq<string>)

  /** The running best of the category loop. */
  datatype Best = Best(category: string, score: real, matched: seq<string>)

  const GENERAL := "General"

  /** The summed weight of the keywords of `kws` that match `t`. */
  function KeywordScore(kws: seq<Keyword>, t: string): real {
    if kws == [] then 0.0
    else
      var last := kws[|kws| - 1];
      KeywordScore(kws[..|kws| - 1], t) + (if KeywordMatches(last.text, t) then last.weight else 0.0)
  }

  function CategoryScore(c: Category, t: string): real {
    KeywordScore(c.keywords, t)
  }

  /** The keywords of `c` that match `t`, in the category's own order. */
  function CategoryMatches(c: Category, t: string): seq<string> {
    MatchingIn(Texts(c.keywords), t)
  }

  /** With positive weights, a score is never negative, and it is positive
      exactly when some keyword matches. */
  lemma {:induction false} KeywordScoreSign(kws: seq<Keyword>, t: string)
    requires forall i :: 0 <= i < |kws| ==> kws[i].weight > 0.0
    ensures KeywordScore(kws, t) >= 0.0
    ensures KeywordScore(kws, t) > 0.0 <==> MatchingIn(Texts(kws), t) != []
  {
    if kws != [] {
      var init := kws[..|kws| - 1];
      KeywordScoreSign(init, t);
      assert Texts(kws) == Texts(init) + [kws[|kws| - 1].text];
      assert Texts(kws)[..|Texts(kws)| - 1] == Texts(init);
    }
  }

  lemma CategoryScoreSign(c: Category, t: string)
    requires PositiveWeights(c)
    ensures CategoryScore(c, t) >= 0.0
    ensures CategoryScore(c, t) > 0.0 <==> CategoryMatches(c, t) != []
  {
    KeywordScoreSign(c.keywords, t);
  }

  /** The result of the category loop over `cats`: a later category replaces
      the running best only with a strictly higher score. */
  function BestOf(cats: seq<Category>, t: string): Best {
    if cats == [] then Best(GENERAL, 0.0, [])
    else
      var b := BestOf(cats[..|cats| - 1], t);
      var c := cats[|cats| - 1];
      var s := CategoryScore(c, t);
      if s > b.score then Best(c.name, s, CategoryMatches(c, t)) else b
  }

  /** The winner of the category loop, described without the loop: the best
      score is the largest category score (or 0.0); when it is positive it
      belongs to the first category that reaches it, whose name and matches
      are reported; otherwise the result is "General" with nothing matched. */
  lemma {:induction false} BestOfSpec(cats: seq<Category>, t: string)
    ensures BestOf(cats, t).score >= 0.0
    ensures forall i :: 0 <= i < |cats| ==> CategoryScore(cats[i], t) <= BestOf(cats, t).score
    ensures BestOf(cats, t).score == 0.0 ==> BestOf(cats, t) == Best(GENERAL, 0.0, [])
    ensures BestOf(cats, t).score > 0.0 ==>
      exists i :: 0 <= i < |cats| && IsFirstBest(cats, t, i, BestOf(cats, t))
  {
    if cats != [] {
      var init := cats[..|cats| - 1];
      var c := cats[|cats| - 1];
      BestOfSpec(init, t);
      var b := BestOf(init, t);
      var s := CategoryScore(c, t);
      assert init == cats[..|cats| - 1];
      assert BestOf(cats, t) == if s > b.score then Best(c.name, s, CategoryMatches(c, t)) else b;
      assert forall i :: 0 <= i < |init| ==> cats[i] == init[i];
      if s > b.score {
        assert IsFirstBest(cats, t, |cats| - 1, BestOf(cats, t));
      } else {
        if b.score > 0.0 {
          var i :| 0 <= i < |init| && IsFirstBest(init, t, i, b);
          assert IsFirstBest(cats, t, i, b);
        }
      }
    }
  }

  /** Category `i` of `cats` is the reported winner `b`: its name, score and
      matches, with no earlier category scoring as much. */
  ghost predicate IsFirstBest(cats: seq<Category>, t: string, i: int, b: Best)
    requires 0 <= i < |cats|
  {
    && b == Best(cats[i].name, CategoryScore(cats[i], t), CategoryMatches(cats[i], t))
    && forall j :: 0 <= j < i ==> CategoryScore(cats[j], t) < b.score
  }

  /** Nothing is won exactly when no category scores above zero. */
  lemma GeneralIffNoPositiveScore(cats: seq<Category>, t: string)
    ensures BestOf(cats, t).score == 0.0 <==>
      forall i :: 0 <= i < |cats| ==> CategoryScore(cats[i], t) <= 0.0
  {
    BestOfSpec(cats, t);
    if BestOf(cats, t).score > 0.0 {
      var i :| 0 <= i < |cats| && IsFirstBest(cats, t, i, BestOf(cats, t));
    }
  }

  function MaxReal(a: real, b: real): real { if a >= b then a else b }

  function MinReal(a: real, b: real): real { if a <= b then a else b }

  /** `min(0.95, max(0.5, 0.5 + best / max(10.0, maxPossible * 0.3)))`. */
  function Confidence(best: real, maxPossible: real): (conf: real)
    ensures 0.5 <= conf <= 0.95
  {
    MinReal(0.95, MaxReal(0.5, 0.5 + best / MaxReal(10.0, maxPossible * 0.3)))
  }

  /** The confidence never decreases as the winning score grows; it is 0.5 at
      a score of zero. */
  lemma ConfidenceMonotone(a: real, b: real, maxPossible: real)
    requires a <= b
    ensures Confidence(a, maxPossible) <= Confidence(b, maxPossible)
    ensures Confidence(0.0, maxPossible) == 0.5
  {
    var d := MaxReal(10.0, maxPossible * 0.3);
    assert a / d <= b / d;
  }

  /** While `maxPossible * 0.3` stays at most 10.0 the divisor is 10.0, and a
      non-negative score gives `0.5 + best / 10` capped at 0.95: the cap is
      reached from a score of 4.5 on. */
  lemma ConfidenceSmallTaxonomy(best: real, maxPossible: real)
    requires best >= 0.0 && maxPossible * 0.3 <= 10.0
    ensures Confidence(best, maxPossible) == MinReal(0.95, 0.5 + best / 10.0)
    ensures Confidence(best, maxPossible) == 0.95 <==> best >= 4.5
  {
    assert MaxReal(10.0, maxPossible * 0.3) == 10.0;
  }

  /** The shipped taxonomy's largest possible sum is 21.0, so its divisor is 10.0. */
  lemma ShippedConfidence(best: real)
    requires best >= 0.0
    ensures Confidence(best, MaxPossibleScore(CATEGORIES)) == MinReal(0.95, 0.5 + best / 10.0)
    ensures Confidence(best, MaxPossibleScore(CATEGORIES)) == 0.95 <==> best >= 4.5
  {
    ShippedMaxPossibleScore();
    ConfidenceSmallTaxonomy(best, MaxPossibleScore(CATEGORIES));
  }

  /** The heuristic tier of `predict_category(text)`. */
  function HeuristicPrediction(text: string): Prediction {
    var b := BestOf(CATEGORIES, Lower(text));
    Prediction(b.category, Confidence(b.score, MaxPossibleScore(CATEGORIES)), Render(b.matched))
  }

  /** Over a taxonomy with positive weights and no category called "General",
      the loop ends on "General" exactly when no keyword matches, and then
      with a zero score and nothing matched. */
  lemma GeneralIffNoMatch(cats: seq<Category>, t: string)
    requires forall i :: 0 <= i < |cats| ==> PositiveWeights(cats[i]) && cats[i].name != GENERAL
    ensures BestOf(cats, t).category == GENERAL <==>
      forall i, k :: 0 <= i < |cats| && 0 <= k < |cats[i].keywords| ==>
        !KeywordMatches(cats[i].keywords[k].text, t)
    ensures BestOf(cats, t).category == GENERAL ==> BestOf(cats, t) == Best(GENERAL, 0.0, [])
  {
    var b := BestOf(cats, t);
    BestOfSpec(cats, t);
    if b.score > 0.0 {
      var i :| 0 <= i < |cats| && IsFirstBest(cats, t, i, b);
      CategoryScoreSign(cats[i], t);
      var m := CategoryMatches(cats[i], t);
      var kws := Texts(cats[i].keywords);
      MatchingInMembers(kws, t);
      assert m[0] in kws;
    } else {
      forall i, k | 0 <= i < |cats| && 0 <= k < |cats[i].keywords|
        ensures !KeywordMatches(cats[i].keywords[k].text, t)
      {
        CategoryScoreSign(cats[i], t);
        var kws := Texts(cats[i].keywords);
        MatchingInMembers(kws, t);
        assert kws[k] in kws;
      }
    }
  }

  /** The heuristic answers "General", with confidence 0.5 and the default
      skills, exactly when no keyword of the taxonomy matches the text. */
  lemma HeuristicGeneralIffNoMatch(text: string)
    ensures HeuristicPrediction(text).category == GENERAL <==>
      forall i, k :: 0 <= i < |CATEGORIES| && 0 <= k < |CATEGORIES[i].keywords| ==>
        !KeywordMatches(CATEGORIES[i].keywords[k].text, Lower(text))
    ensures HeuristicPrediction(text).category == GENERAL ==>
      HeuristicPrediction(text).confidence == 0.5 &&
      HeuristicPrediction(text).skills == DEFAULT_SKILLS
  {
    ShippedWellFormed();
    ShippedNames();
    assert forall i :: 0 <= i < |CATEGORIES| ==> Names(CATEGORIES)[i] == CATEGORIES[i].name;
    GeneralIffNoMatch(CATEGORIES, Lower(text));
    ConfidenceMonotone(0.0, 0.0, MaxPossibleScore(CATEGORIES));
  }

  /** Over a lower-case text and a taxonomy whose categories each list a
      keyword once, the winning category's rendered matches repeat no skill. */
  lemma WinnerSkillsDistinct(cats: seq<Category>, t: string)
    requires IsLowerCase(t)
    requires forall i :: 0 <= i < |cats| ==> DistinctKeywords(cats[i])
    ensures NoDuplicates(Render(BestOf(cats, t).matched))
  {
    var b := BestOf(cats, t);
    BestOfSpec(cats, t);
    if b.score > 0.0 {
      var i :| 0 <= i < |cats| && IsFirstBest(cats, t, i, b);
      var kws := Texts(cats[i].keywords);
      assert NoDuplicates(kws);
      MatchingInDistinct(kws, t);
      MatchingInMembers(kws, t);
      forall k | 0 <= k < |b.matched|
        ensures IsLowerCase(b.matched[k])
      {
        assert b.matched[k] in b.matched;
        MatchedKeywordIsLowerCase(b.matched[k], t);
      }
      RenderDistinct(b.matched);
    } else {
      assert DEFAULT_SKILLS[0] != DEFAULT_SKILLS[1];
    }
  }

  /** The heuristic tier never lists a skill twice. */
  lemma HeuristicSkillsDistinct(text: string)
    ensures NoDuplicates(HeuristicPrediction(text).skills)
  {
    forall i | 0 <= i < |CATEGORIES|
      ensures DistinctKeywords(CATEGORIES[i])
    {
      ShippedDistinct(CATEGORIES[i]);
    }
    WinnerSkillsDistinct(CATEGORIES, Lower(text));
  }

  /** One keyword step of the scoring loop. */
  lemma ScoreStep(kws: seq<Keyword>, k: nat, t: string)
    requires k < |kws|
    ensures KeywordScore(kws[..k + 1], t) ==
      KeywordScore(kws[..k], t) + (if KeywordMatches(kws[k].text, t) then kws[k].weight else 0.0)
    ensures MatchingIn(Texts(kws[..k + 1]), t) ==
      MatchingIn(Texts(kws[..k]), t) + (if KeywordMatches(kws[k].text, t) then [kws[k].text] else [])
  {
    assert kws[..k + 1][..k] == kws[..k];
    TextsSnoc(kws, k);
    var ts := Texts(kws[..k + 1]);
    assert ts[..|ts| - 1] == Texts(kws[..k]);
  }

  /** The category loop of the heuristic tier, over a given taxonomy and an
      already lower-cased text. */
  method BestCategory(cats: seq<Category>, textLower: string) returns (best: Best)
    ensures best == BestOf(cats, textLower)
  {
    var bestCategory := GENERAL;
    var bestScore := 0.0;
    var bestSkills: seq<string> := [];
    for ci := 0 to |cats|
      invariant Best(bestCategory, bestScore, bestSkills) == BestOf(cats[..ci], textLower)
    {
      var keywords := cats[ci].keywords;
      var score := 0.0;
      var matched: seq<string> := [];
      for ki := 0 to |keywords|
        invariant score == KeywordScore(keywords[..ki], textLower)
        invariant matched == MatchingIn(Texts(keywords[..ki]), textLower)
      {
        var kw := keywords[ki].text;
        var weight := keywords[ki].weight;
        ScoreStep(keywords, ki, textLower);
        if IsPhrase(kw) {
          if ContainsFrom(textLower, kw, 0) {
            score := score + weight;
            matched := matched + [kw];
          }
        } else {
          if SearchWordFrom(textLower, kw, 0) {
            score := score + weight;
            matched := matched + [kw];
          }
        }
      }
      assert keywords[..|keywords|] == keywords;
      if score > bestScore {
        bestScore := score;
        bestCategory := cats[ci].name;
        bestSkills := matched;
      }
      assert cats[..ci + 1][..ci] == cats[..ci];
    }
    assert cats[..|cats|] == cats;
    best := Best(bestCategory, bestScore, bestSkills);
  }

  /** The heuristic tier of `predict_category`. */
  method PredictHeuristic(text: string) returns (p: Prediction)
    ensures p == HeuristicPrediction(text)
  {
    var textLower := Lower(text);
    var best := BestCategory(CATEGORIES, textLower);
    var maxPossible := MaxPossibleScore(CATEGORIES);
    var confidence := Confidence(best.score, maxPossible);
    var skills := Render(best.matched);
    p := Prediction(best.category, confidence, skills);
  }
}
