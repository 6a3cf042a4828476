/** `extract_skills`: every taxonomy keyword that matches the lower-cased text,
    in taxonomy order, each at most once, title-cased and capped at fifteen,
    with a fixed two-item default when nothing matches. */
module SkillExtraction {
  import opened AsciiText
  import opened Matching
  import opened Taxonomy

  const DEFAULT_SKILLS: seq<string> := ["Communication", "Teamwork"]

  const MAX_SKILLS: nat := 15

  function Min(a: nat, b: nat): nat { if a <= b then a else b }

  /** The keyword strings of `kws`, in order. */
  function Texts(kws: seq<Keyword>): (r: seq<string>)
    ensures |r| == |kws|
    ensures forall i :: 0 <= i < |kws| ==> r[i] == kws[i].text
  {
    if kws == [] then [] else Texts(kws[..|kws| - 1]) + [kws[|kws| - 1].text]
  }

  /** Every keyword of `cats` in the order the source walks them: category
      by category, each category's keywords in their own order. */
  function KeywordsInOrder(cats: seq<Category>): seq<string> {
    if cats == [] then []
    else KeywordsInOrder(cats[..|cats| - 1]) + Texts(cats[|cats| - 1].keywords)
  }

  lemma {:induction false} KeywordsInOrderMembers(cats: seq<Category>, x: string)
    ensures x in KeywordsInOrder(cats) <==>
      exists ci, ki :: 0 <= ci < |cats| && 0 <= ki < |cats[ci].keywords| && cats[ci].keywords[ki].text == x
  {
    if cats != [] {
      var init := cats[..|cats| - 1];
      KeywordsInOrderMembers(init, x);
      if x in KeywordsInOrder(init) {
        var ci, ki :| 0 <= ci < |init| && 0 <= ki < |init[ci].keywords| && init[ci].keywords[ki].text == x;
        assert cats[ci] == init[ci];
      } else if x in Texts(cats[|cats| - 1].keywords) {
        var ts := Texts(cats[|cats| - 1].keywords);
        var ki :| 0 <= ki < |ts| && ts[ki] == x;
        assert cats[|cats| - 1].keywords[ki].text == x;
      } else {
        forall ci, ki | 0 <= ci < |cats| && 0 <= ki < |cats[ci].keywords|
          ensures cats[ci].keywords[ki].text != x
        {
          if ci < |init| {
            assert cats[ci] == init[ci];
          } else {
            assert Texts(cats[ci].keywords)[ki] == cats[ci].keywords[ki].text;
          }
        }
      }
    }
  }

  /** The entries of `kws` that match the text `t`, in order. */
  function MatchingIn(kws: seq<string>, t: string): seq<string> {
    if kws == [] then []
    else
      var last := kws[|kws| - 1];
      MatchingIn(kws[..|kws| - 1], t) + (if KeywordMatches(last, t) then [last] else [])
  }

  lemma {:induction false} MatchingInMembers(kws: seq<string>, t: string)
    ensures forall x :: x in MatchingIn(kws, t) <==> x in kws && KeywordMatches(x, t)
  {
    if kws != [] {
      var init := kws[..|kws| - 1];
      MatchingInMembers(init, t);
      assert kws == init + [kws[|kws| - 1]];
    }
  }

  predicate NoDuplicates(s: seq<string>) {
    forall i, j :: 0 <= i < j < |s| ==> s[i] != s[j]
  }

  /** Filtering a repetition-free list leaves it repetition-free. */
  lemma {:induction false} MatchingInDistinct(kws: seq<string>, t: string)
    requires NoDuplicates(kws)
    ensures NoDuplicates(MatchingIn(kws, t))
  {
    if kws != [] {
      var init := kws[..|kws| - 1];
      var last := kws[|kws| - 1];
      assert NoDuplicates(init);
      MatchingInDistinct(init, t);
      MatchingInMembers(init, t);
      assert last !in init;
    }
  }

  /** `s` with every element after its first occurrence removed. */
  function Dedup(s: seq<string>): seq<string> {
    if s == [] then []
    else
      var d := Dedup(s[..|s| - 1]);
      var last := s[|s| - 1];
      if last in d then d else d + [last]
  }

  /** Position of the first occurrence of `x` in `s`. */
  function FirstIndex(s: seq<string>, x: string): (k: nat)
    requires x in s
    ensures k < |s| && s[k] == x && x !in s[..k]
  {
    if s[0] == x then 0
    else
      var k := 1 + FirstIndex(s[1..], x);
      assert s[..k] == [s[0]] + s[1..][..k - 1];
      k
  }

  lemma {:induction false} FirstIndexInPrefix(p: seq<string>, q: seq<string>, x: string)
    requires x in p
    ensures FirstIndex(p + q, x) == FirstIndex(p, x)
  {
    if p[0] != x {
      assert (p + q)[1..] == p[1..] + q;
      FirstIndexInPrefix(p[1..], q, x);
    }
  }

  /** Dedup keeps every element of `s` exactly once, at the place of its
      first occurrence: the kept elements follow the order in which they first
      occur in `s`. */
  lemma {:induction false} DedupFirstOccurrences(s: seq<string>)
    ensures NoDuplicates(Dedup(s))
    ensures forall x :: x in Dedup(s) <==> x in s
    ensures forall i, j :: 0 <= i < j < |Dedup(s)| ==>
      FirstIndex(s, Dedup(s)[i]) < FirstIndex(s, Dedup(s)[j])
  {
    if s != [] {
      var init := s[..|s| - 1];
      var last := s[|s| - 1];
      assert s == init + [last];
      DedupFirstOccurrences(init);
      var d := Dedup(init);
      forall y | y in init
        ensures FirstIndex(s, y) == FirstIndex(init, y)
      {
        FirstIndexInPrefix(init, [last], y);
      }
      if last !in d {
        assert FirstIndex(s, last) == |init| by {
          assert s[|init|] == last && last !in s[..|init|];
        }
      }
    }
  }

  /** Filtering keeps the relative order of first occurrences. */
  lemma {:induction false} MatchingInFirstIndex(kws: seq<string>, t: string, x: string, y: string)
    requires x in MatchingIn(kws, t) && y in MatchingIn(kws, t)
    requires FirstIndex(MatchingIn(kws, t), x) < FirstIndex(MatchingIn(kws, t), y)
    ensures x in kws && y in kws
    ensures FirstIndex(kws, x) < FirstIndex(kws, y)
  {
    MatchingInMembers(kws, t);
    var init := kws[..|kws| - 1];
    var last := kws[|kws| - 1];
    assert kws == init + [last];
    var mi := MatchingIn(init, t);
    var m := MatchingIn(kws, t);
    MatchingInMembers(init, t);
    if x in mi && y in mi {
      FirstIndexInPrefix(mi, m[|mi|..], x);
      FirstIndexInPrefix(mi, m[|mi|..], y);
      assert m == mi + m[|mi|..];
      MatchingInFirstIndex(init, t, x, y);
      FirstIndexInPrefix(init, [last], x);
      FirstIndexInPrefix(init, [last], y);
    } else if x in mi {
      FirstIndexInPrefix(init, [last], x);
      assert y == last && y !in init;
      assert FirstIndex(kws, y) == |init| by {
        assert kws[|init|] == y && y !in kws[..|init|];
      }
    }
  }

  /** What the collecting loops produce from the keyword list `kws`: exactly
      the keywords of `kws` that match `t`, each once, in the order in which
      they first occur in `kws`. */
  lemma CollectedKeywords(kws: seq<string>, t: string)
    ensures NoDuplicates(Dedup(MatchingIn(kws, t)))
    ensures forall x :: x in Dedup(MatchingIn(kws, t)) <==> x in kws && KeywordMatches(x, t)
    ensures forall i, j :: 0 <= i < j < |Dedup(MatchingIn(kws, t))| ==>
      var m := Dedup(MatchingIn(kws, t));
      m[i] in kws && m[j] in kws && FirstIndex(kws, m[i]) < FirstIndex(kws, m[j])
  {
    var mk := MatchingIn(kws, t);
    var m := Dedup(mk);
    MatchingInMembers(kws, t);
    DedupFirstOccurrences(mk);
    forall i, j | 0 <= i < j < |m|
      ensures m[i] in kws && m[j] in kws && FirstIndex(kws, m[i]) < FirstIndex(kws, m[j])
    {
      MatchingInFirstIndex(kws, t, m[i], m[j]);
    }
  }

  /** The keywords that `extract_skills` collects for `text`, before rendering. */
  function MatchedKeywords(text: string): seq<string> {
    Dedup(MatchingIn(KeywordsInOrder(CATEGORIES), Lower(text)))
  }

  /** `[s.title() for s in matched][:15]`, or the default when that is empty. */
  function Render(matched: seq<string>): (skills: seq<string>)
    ensures 0 < |skills| <= MAX_SKILLS
    ensures matched == [] ==> skills == DEFAULT_SKILLS
    ensures matched != [] ==> |skills| == Min(|matched|, MAX_SKILLS)
    ensures matched != [] ==> forall i :: 0 <= i < |skills| ==> skills[i] == TitleCase(matched[i])
  {
    var titled := seq(|matched|, i requires 0 <= i < |matched| => TitleCase(matched[i]));
    var display := titled[..Min(|matched|, MAX_SKILLS)];
    if display != [] then display else DEFAULT_SKILLS
  }

  /** The result of `extract_skills(text)`. */
  function Skills(text: string): seq<string> {
    Render(MatchedKeywords(text))
  }

  /** The rendered list repeats no skill when the collected keywords are
      distinct and lower case. */
  lemma RenderDistinct(matched: seq<string>)
    requires NoDuplicates(matched)
    requires forall i :: 0 <= i < |matched| ==> IsLowerCase(matched[i])
    ensures NoDuplicates(Render(matched))
  {
    var skills := Render(matched);
    if matched != [] {
      forall i, j | 0 <= i < j < |skills|
        ensures skills[i] != skills[j]
      {
        if skills[i] == skills[j] {
          TitleCaseInjective(matched[i], matched[j]);
        }
      }
    }
  }

  /** The default list comes out exactly when nothing was collected, provided
      "teamwork" itself cannot be collected. */
  lemma RenderDefaultIffEmpty(matched: seq<string>)
    requires "teamwork" !in matched
    requires forall i :: 0 <= i < |matched| ==> IsLowerCase(matched[i])
    ensures Render(matched) == DEFAULT_SKILLS <==> matched == []
  {
    var skills := Render(matched);
    assert Lower(DEFAULT_SKILLS[1]) == "teamwork";
    if matched != [] && |skills| >= 2 {
      LowerOfTitleCase(matched[1]);
    }
  }

  /** No taxonomy whose categories avoid "teamwork" lists it as a keyword. */
  lemma {:induction false} TeamworkNotListed(cats: seq<Category>)
    requires forall c :: c in cats ==> AvoidsTeamwork(c)
    ensures "teamwork" !in KeywordsInOrder(cats)
  {
    forall ci, ki | 0 <= ci < |cats| && 0 <= ki < |cats[ci].keywords|
      ensures cats[ci].keywords[ki].text != "teamwork"
    {
      assert cats[ci] in cats;
    }
    KeywordsInOrderMembers(cats, "teamwork");
  }

  /** The collected keywords of a text are lower case. */
  lemma MatchedAreLowerCase(kws: seq<string>, text: string)
    ensures forall x :: x in Dedup(MatchingIn(kws, Lower(text))) ==> IsLowerCase(x)
  {
    CollectedKeywords(kws, Lower(text));
    forall x | x in Dedup(MatchingIn(kws, Lower(text)))
      ensures IsLowerCase(x)
    {
      MatchedKeywordIsLowerCase(x, Lower(text));
    }
  }

  /** `extract_skills` never lists a skill twice. */
  lemma SkillsDistinct(text: string)
    ensures NoDuplicates(Skills(text))
  {
    var kws := KeywordsInOrder(CATEGORIES);
    CollectedKeywords(kws, Lower(text));
    MatchedAreLowerCase(kws, text);
    RenderDistinct(MatchedKeywords(text));
  }

  /** `extract_skills` returns the default list exactly when no taxonomy
      keyword matches the text. */
  lemma SkillsDefaultIffNoMatch(text: string)
    ensures Skills(text) == DEFAULT_SKILLS <==>
      forall x :: x in KeywordsInOrder(CATEGORIES) ==> !KeywordMatches(x, Lower(text))
  {
    var kws := KeywordsInOrder(CATEGORIES);
    CollectedKeywords(kws, Lower(text));
    MatchedAreLowerCase(kws, text);
    NoDefaultSkillKeyword();
    TeamworkNotListed(CATEGORIES);
    var m := MatchedKeywords(text);
    assert forall i :: 0 <= i < |m| ==> m[i] in m;
    RenderDefaultIffEmpty(m);
    if m != [] {
      assert m[0] in m;
    }
  }

  /** One step of the collecting loop: a keyword is appended when it matches
      and has not been collected yet. */
  lemma CollectStep(done: seq<string>, kw: string, t: string)
    ensures Dedup(MatchingIn(done + [kw], t)) ==
      var d := Dedup(MatchingIn(done, t));
      if KeywordMatches(kw, t) && kw !in d then d + [kw] else d
  {
    assert (done + [kw])[..|done|] == done;
    var m := MatchingIn(done, t);
    if KeywordMatches(kw, t) {
      assert MatchingIn(done + [kw], t) == m + [kw];
      assert (m + [kw])[..|m|] == m;
    } else {
      assert MatchingIn(done + [kw], t) == m;
    }
  }

  lemma TextsSnoc(kws: seq<Keyword>, k: nat)
    requires k < |kws|
    ensures Texts(kws[..k + 1]) == Texts(kws[..k]) + [kws[k].text]
  {
    assert kws[..k + 1][..k] == kws[..k];
  }

  /** One step of the inner loop, over the walk so far. */
  lemma KeywordStep(before: seq<string>, kws: seq<Keyword>, k: nat, t: string)
    requires k < |kws|
    ensures Dedup(MatchingIn(before + Texts(kws[..k + 1]), t)) ==
      var d := Dedup(MatchingIn(before + Texts(kws[..k]), t));
      if KeywordMatches(kws[k].text, t) && kws[k].text !in d then d + [kws[k].text] else d
  {
    TextsSnoc(kws, k);
    assert before + Texts(kws[..k + 1]) == (before + Texts(kws[..k])) + [kws[k].text];
    CollectStep(before + Texts(kws[..k]), kws[k].text, t);
  }

  lemma KeywordsInOrderSnoc(cats: seq<Category>, c: nat)
    requires c < |cats|
    ensures KeywordsInOrder(cats[..c + 1]) == KeywordsInOrder(cats[..c]) + Texts(cats[c].keywords)
  {
    assert cats[..c + 1][..c] == cats[..c];
  }

  /** The collecting loops of `extract_skills`, over a given taxonomy. */
  method CollectMatches(cats: seq<Category>, textLower: string) returns (matched: seq<string>)
    ensures matched == Dedup(MatchingIn(KeywordsInOrder(cats), textLower))
  {
    matched := [];
    for ci := 0 to |cats|
      invariant matched == Dedup(MatchingIn(KeywordsInOrder(cats[..ci]), textLower))
    {
      var keywords := cats[ci].keywords;
      ghost var before := KeywordsInOrder(cats[..ci]);
      assert before + Texts(keywords[..0]) == before;
      for ki := 0 to |keywords|
        invariant matched == Dedup(MatchingIn(before + Texts(keywords[..ki]), textLower))
      {
        var kw := keywords[ki].text;
        var hit := if IsPhrase(kw) then ContainsFrom(textLower, kw, 0) else SearchWordFrom(textLower, kw, 0);
        if hit && kw !in matched {
          matched := matched + [kw];
        }
        KeywordStep(before, keywords, ki, textLower);
      }
      KeywordsInOrderSnoc(cats, ci);
      assert keywords[..|keywords|] == keywords;
    }
    assert cats[..|cats|] == cats;
  }

  /** `extract_skills(text)`. */
  method ExtractSkills(text: string) returns (skills: seq<string>)
    ensures skills == Skills(text)
  {
    var textLower := Lower(text);
    var matched := CollectMatches(CATEGORIES, textLower);
    skills := Render(matched);
  }
}
