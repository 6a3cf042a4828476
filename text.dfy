/** ASCII models of the Python string operations the classifier relies on:
    `str.lower`, `str.title`, `str.strip` and the `\w` class of the `re` module.
    Characters outside ASCII are treated as uncased, non-word and non-space. */
module AsciiText {

  predicate IsUpper(c: char) { 'A' <= c <= 'Z' }

  predicate IsLower(c: char) { 'a' <= c <= 'z' }

  /** A cased character in the sense of `str.title`. */
  predicate IsCased(c: char) { IsUpper(c) || IsLower(c) }

  predicate IsDigit(c: char) { '0' <= c <= '9' }

  /** The `\w` class of a regular expression: letters, digits and underscore. */
  predicate IsWordChar(c: char) { IsCased(c) || IsDigit(c) || c == '_' }

  /** The characters `str.strip()` removes (`str.isspace` restricted to ASCII). */
  predicate IsSpace(c: char) {
    c == ' ' || ('\t' <= c <= '\r') || ('\U{1C}' <= c <= '\U{1F}')
  }

  function ToLower(c: char): (r: char)
    ensures !IsUpper(r) && (IsCased(r) <==> IsCased(c))
    ensures !IsUpper(c) ==> r == c
  {
    if IsUpper(c) then (c as int + 32) as char else c
  }

  function ToUpper(c: char): (r: char)
    ensures !IsLower(r) && (IsCased(r) <==> IsCased(c))
    ensures ToLower(r) == ToLower(c)
  {
    if IsLower(c) then (c as int - 32) as char else c
  }

  /** No upper-case letter anywhere in `s`. */
  predicate IsLowerCase(s: string) {
    forall i :: 0 <= i < |s| ==> !IsUpper(s[i])
  }

  /** `s.lower()`: every letter lower-cased, nothing else touched. */
  function Lower(s: string): (r: string)
    ensures |r| == |s| && IsLowerCase(r)
    ensures forall i :: 0 <= i < |s| ==> ToLower(s[i]) == r[i]
    ensures IsLowerCase(s) ==> r == s
  {
    seq(|s|, i requires 0 <= i < |s| => ToLower(s[i]))
  }

  /** `str.title` run from a state in which the previous character was
      (`prevCased`) or was not cased: a cased character after a cased one is
      lower-cased, any other cased character upper-cased. */
  function TitleFrom(s: string, prevCased: bool): (r: string)
    ensures |r| == |s|
  {
    if s == [] then []
    else
      var c := s[0];
      var head := if !IsCased(c) then c else if prevCased then ToLower(c) else ToUpper(c);
      [head] + TitleFrom(s[1..], IsCased(c))
  }

  /** `s.title()`. */
  function TitleCase(s: string): (r: string)
    ensures |r| == |s|
  {
    TitleFrom(s, false)
  }

  /** Position `i` of `s` begins a run of cased characters. */
  predicate StartsWord(s: string, i: int)
    requires 0 <= i < |s|
  {
    IsCased(s[i]) && (i == 0 || !IsCased(s[i - 1]))
  }

  lemma {:induction false} TitleFromAt(s: string, prevCased: bool, i: int)
    requires 0 <= i < |s|
    ensures TitleFrom(s, prevCased)[i] ==
      if !IsCased(s[i]) then s[i]
      else if (if i == 0 then prevCased else IsCased(s[i - 1])) then ToLower(s[i])
      else ToUpper(s[i])
  {
    if i > 0 {
      TitleFromAt(s[1..], IsCased(s[0]), i - 1);
    }
  }

  /** What `str.title` does to each character: the first letter of every run
      of letters becomes upper case, every other letter lower case, and every
      other character is kept. */
  lemma TitleCaseAt(s: string, i: int)
    requires 0 <= i < |s|
    ensures TitleCase(s)[i] ==
      if !IsCased(s[i]) then s[i]
      else if StartsWord(s, i) then ToUpper(s[i])
      else ToLower(s[i])
  {
    TitleFromAt(s, false, i);
  }

  /** Title-casing only changes case: lower-casing undoes it on a lower-case
      string, so title-casing is injective on lower-case strings. */
  lemma LowerOfTitleCase(s: string)
    requires IsLowerCase(s)
    ensures Lower(TitleCase(s)) == s
  {
    forall i | 0 <= i < |s|
      ensures Lower(TitleCase(s))[i] == s[i]
    {
      TitleCaseAt(s, i);
    }
  }

  lemma TitleCaseInjective(a: string, b: string)
    requires IsLowerCase(a) && IsLowerCase(b)
    requires TitleCase(a) == TitleCase(b)
    ensures a == b
  {
    LowerOfTitleCase(a);
    LowerOfTitleCase(b);
  }

  /** The example rendering of the skill list. */
  lemma TitleCaseExample(s: string)
    requires s == "scikit-learn"
    ensures TitleCase(s) == "Scikit-Learn"
  {
    forall i | 0 <= i < |s|
      ensures TitleCase(s)[i] == "Scikit-Learn"[i]
    {
      TitleCaseAt(s, i);
    }
  }

  /** Index of the first non-space character at or after `from`. */
  function SkipSpace(s: string, from: nat): (i: nat)
    requires from <= |s|
    ensures from <= i <= |s|
    ensures forall k :: from <= k < i ==> IsSpace(s[k])
    ensures i < |s| ==> !IsSpace(s[i])
    decreases |s| - from
  {
    if from < |s| && IsSpace(s[from]) then SkipSpace(s, from + 1) else from
  }

  /** One past the last non-space character before `upto`, not going below `low`. */
  function SkipSpaceBack(s: string, low: nat, upto: nat): (j: nat)
    requires low <= upto <= |s|
    ensures low <= j <= upto
    ensures forall k :: j <= k < upto ==> IsSpace(s[k])
    ensures j > low ==> !IsSpace(s[j - 1])
    decreases upto
  {
    if upto > low && IsSpace(s[upto - 1]) then SkipSpaceBack(s, low, upto - 1) else upto
  }

  /** `s.strip()`. */
  function Strip(s: string): (r: string)
    ensures r == [] || (!IsSpace(r[0]) && !IsSpace(r[|r| - 1]))
    ensures (forall k :: 0 <= k < |s| ==> IsSpace(s[k])) ==> r == []
  {
    var i := SkipSpace(s, 0);
    var j := SkipSpaceBack(s, i, |s|);
    s[i..j]
  }

  /** Strip keeps exactly the middle of `s` between leading and trailing white space. */
  lemma StripIsSlice(s: string)
    ensures exists i, j :: (0 <= i <= j <= |s| && Strip(s) == s[i..j]
      && (forall k :: 0 <= k < i ==> IsSpace(s[k]))
      && (forall k :: j <= k < |s| ==> IsSpace(s[k])))
  {
    var i := SkipSpace(s, 0);
    var j := SkipSpaceBack(s, i, |s|);
    assert Strip(s) == s[i..j];
  }

  /** A string with no white space at either end is left as it is. */
  lemma StripTrimmed(s: string)
    requires s == [] || (!IsSpace(s[0]) && !IsSpace(s[|s| - 1]))
    ensures Strip(s) == s
  {
    if s != [] {
      assert SkipSpace(s, 0) == 0;
      assert SkipSpaceBack(s, 0, |s|) == |s|;
    }
  }

  lemma StripIdempotent(s: string)
    ensures Strip(Strip(s)) == Strip(s)
  {
    StripTrimmed(Strip(s));
  }
}
