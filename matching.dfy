/** The keyword matching rule shared by skill extraction and the heuristic
    classifier: a keyword containing a space is looked up as a plain
    substring of the lower-cased text; any other keyword must be found by the
    regular expression `\b<keyword>\b`, where `\b` is a word boundary. */
module Matching {
  import opened AsciiText

  /** `kw` occurs in `t` starting at position `i`. */
  predicate OccursAt(t: string, kw: string, i: int) {
    0 <= i && i + |kw| <= |t| && t[i..i + |kw|] == kw
  }

  /** Position `j` of `t` holds a word character; positions outside `t` do not. */
  predicate IsWordAt(t: string, j: int) {
    0 <= j < |t| && IsWordChar(t[j])
  }

  /** `\b`: a word character on exactly one side of position `j`. */
  predicate IsBoundary(t: string, j: int) {
    IsWordAt(t, j - 1) != IsWordAt(t, j)
  }

  /** `\b<kw>\b` matches at position `i` of `t`. */
  predicate WordOccursAt(t: string, kw: string, i: int) {
    OccursAt(t, kw, i) && IsBoundary(t, i) && IsBoundary(t, i + |kw|)
  }

  /** `kw in t`, searching from position `from`. */
  function ContainsFrom(t: string, kw: string, from: nat): (b: bool)
    ensures b <==> exists i :: from <= i && OccursAt(t, kw, i)
    decreases |t| - from
  {
    if from + |kw| > |t| then false
    else if t[from..from + |kw|] == kw then assert OccursAt(t, kw, from); true
    else ContainsFrom(t, kw, from + 1)
  }

  /** `re.search(r'\b' + re.escape(kw) + r'\b', t)` succeeds, searching from `from`. */
  function SearchWordFrom(t: string, kw: string, from: nat): (b: bool)
    ensures b <==> exists i :: from <= i && WordOccursAt(t, kw, i)
    decreases |t| - from
  {
    if from + |kw| > |t| then false
    else if t[from..from + |kw|] == kw && IsBoundary(t, from) && IsBoundary(t, from + |kw|) then
      assert WordOccursAt(t, kw, from); true
    else SearchWordFrom(t, kw, from + 1)
  }

  predicate IsPhrase(kw: string) { ' ' in kw }

  /** Whether keyword `kw` matches the (already lower-cased) text `t`. */
  function KeywordMatches(kw: string, t: string): (b: bool)
    ensures IsPhrase(kw) ==> (b <==> exists i :: OccursAt(t, kw, i))
    ensures !IsPhrase(kw) ==> (b <==> exists i :: WordOccursAt(t, kw, i))
  {
    if IsPhrase(kw) then ContainsFrom(t, kw, 0) else SearchWordFrom(t, kw, 0)
  }

  /** A single-token keyword does not match inside a longer word. */
  lemma GoNotInAlgorithm()
    ensures !KeywordMatches("go", "algorithm")
  {
    var t := "algorithm";
    forall i | WordOccursAt(t, "go", i)
      ensures false
    {
    }
  }

  /** ... but does match as a word of its own. */
  lemma GoInSentence()
    ensures KeywordMatches("go", Lower("I know Go well"))
  {
    var t := Lower("I know Go well");
    assert t == "i know go well";
    assert WordOccursAt(t, "go", 7);
  }

  /** A phrase matches as a plain substring. */
  lemma PhraseInSentence()
    ensures KeywordMatches("machine learning", "we do machine learning here")
  {
    assert OccursAt("we do machine learning here", "machine learning", 6);
  }

  /** `\b` after a keyword that ends in a non-word character (`c++`, `c#`)
      demands a word character right after the keyword, so such a keyword
      never matches at the end of the text or before a space. */
  lemma NonWordEndNeedsWordAfter(t: string, kw: string, i: int)
    requires kw != [] && !IsWordChar(kw[|kw| - 1])
    requires WordOccursAt(t, kw, i)
    ensures i + |kw| < |t| && IsWordChar(t[i + |kw|])
  {
    assert t[i + |kw| - 1] == kw[|kw| - 1];
  }

  lemma CppAloneDoesNotMatch()
    ensures !KeywordMatches("c++", "c++")
  {
    forall i | WordOccursAt("c++", "c++", i)
      ensures false
    {
      NonWordEndNeedsWordAfter("c++", "c++", i);
    }
  }

  /** Likewise `\b` before a keyword that starts with a non-word character
      (`.net`) demands a word character right before it. */
  lemma NonWordStartNeedsWordBefore(t: string, kw: string, i: int)
    requires kw != [] && !IsWordChar(kw[0])
    requires WordOccursAt(t, kw, i)
    ensures 0 < i && IsWordChar(t[i - 1])
  {
    assert t[i] == kw[0];
  }

  /** A keyword found in a lower-case text is itself lower case. */
  lemma MatchedKeywordIsLowerCase(kw: string, t: string)
    requires IsLowerCase(t) && KeywordMatches(kw, t)
    ensures IsLowerCase(kw)
  {
    var i :| OccursAt(t, kw, i);
    assert OccursAt(t, kw, i);
    assert 0 <= i;
    forall j | 0 <= j < |kw|
      ensures !IsUpper(kw[j])
    {
      assert kw[j] == t[i..i + |kw|][j] == t[i + j];
    }
  }
}
