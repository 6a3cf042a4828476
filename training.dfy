/** The data rules applied to the resume dataset before the model is fitted:
    rows missing a category or a resume are dropped, as are resumes of at most
    fifty characters; labels are stripped and mapped through a fixed alias
    table; and the label list is the sorted list of the distinct labels. */
module Training {
  import opened Wrappers
  import opened AsciiText
  import opened Taxonomy

  /** One row of the dataset: the two columns the trainer reads, each of
      which may be missing. */
  datatype Row = Row(category: Option<string>, resume: Option<string>)

  const MIN_RESUME_LENGTH: nat := 50

  const MIN_ROWS: nat := 10

  /** A row survives the cleaning: both columns present and a resume longer
      than fifty characters. */
  predicate Usable(r: Row) {
    r.category.Some? && r.resume.Some? && |r.resume.value| > MIN_RESUME_LENGTH
  }

  /** The dataset after `dropna` and the length filter. */
  function UsableRows(rows: seq<Row>): (kept: seq<Row>)
    ensures |kept| <= |rows|
    ensures forall i :: 0 <= i < |kept| ==> Usable(kept[i])
  {
    if rows == [] then []
    else
      var init := UsableRows(rows[..|rows| - 1]);
      var last := rows[|rows| - 1];
      if Usable(last) then init + [last] else init
  }

  /** The rows kept are exactly the usable rows of the dataset, each as often
      as it occurs there. */
  lemma {:induction false} UsableRowsMembers(rows: seq<Row>)
    ensures forall r :: r in UsableRows(rows) <==> r in rows && Usable(r)
    ensures forall r :: multiset(UsableRows(rows))[r] == if Usable(r) then multiset(rows)[r] else 0
  {
    if rows != [] {
      var init := rows[..|rows| - 1];
      UsableRowsMembers(init);
      assert rows == init + [rows[|rows| - 1]];
      assert multiset(rows) == multiset(init) + multiset{rows[|rows| - 1]};
    }
  }

  /** The filter keeps the original order: filtering a concatenation
      concatenates the filtered parts, and a single row is kept exactly when
      it is usable. */
  lemma {:induction false} UsableRowsAppend(a: seq<Row>, b: seq<Row>)
    ensures UsableRows(a + b) == UsableRows(a) + UsableRows(b)
    ensures |b| == 1 ==> UsableRows(b) == if Usable(b[0]) then b else []
  {
    if b == [] {
      assert a + b == a;
    } else {
      var init := b[..|b| - 1];
      var last := b[|b| - 1];
      UsableRowsAppend(a, init);
      assert (a + b)[..|a + b| - 1] == a + init;
      assert (a + b)[|a + b| - 1] == last;
      var tail := if Usable(last) then [last] else [];
      assert UsableRows(a + b) == UsableRows(a + init) + tail;
      assert UsableRows(b) == UsableRows(init) + tail;
      if |b| == 1 {
        assert init == [];
      }
    }
  }

  /** Removing rows that fail the filter does not change what survives it. */
  lemma {:induction false} UsableRowsIdempotent(rows: seq<Row>)
    ensures UsableRows(UsableRows(rows)) == UsableRows(rows)
  {
    if rows != [] {
      var init := rows[..|rows| - 1];
      UsableRowsIdempotent(init);
      var k := UsableRows(init);
      var last := rows[|rows| - 1];
      if Usable(last) {
        assert (k + [last])[..|k + [last]| - 1] == k;
      }
    }
  }

  /** The resume texts of the cleaned rows. */
  function ResumeTexts(rows: seq<Row>): (texts: seq<string>)
    requires forall i :: 0 <= i < |rows| ==> Usable(rows[i])
    ensures |texts| == |rows|
    ensures forall i :: 0 <= i < |rows| ==> |texts[i]| > MIN_RESUME_LENGTH
  {
    seq(|rows|, i requires 0 <= i < |rows| && Usable(rows[i]) => rows[i].resume.value)
  }

  /** The alias table: spellings of a category seen in the dataset, mapped to
      the category name the taxonomy uses. */
  const CATEGORY_MAPPING: map<string, string> := map[
    "Data Science" := "Data Science",
    "data science" := "Data Science",
    "Data Scientist" := "Data Science",
    "Software Engineering" := "Software Engineering",
    "software engineering" := "Software Engineering",
    "Software Developer" := "Software Engineering",
    "DevOps" := "DevOps / Cloud",
    "DevOps / Cloud" := "DevOps / Cloud",
    "Cloud Engineer" := "DevOps / Cloud",
    "Product Management" := "Product Management",
    "Product Manager" := "Product Management",
    "UI/UX Design" := "UI/UX Design",
    "UI Designer" := "UI/UX Design",
    "UX Designer" := "UI/UX Design",
    "Data Engineering" := "Data Engineering",
    "Data Engineer" := "Data Engineering",
    "Cybersecurity" := "Cybersecurity",
    "Security Engineer" := "Cybersecurity"
  ]

  /** `category_mapping.get(raw, raw)`. */
  function Normalize(raw: string): string {
    if raw in CATEGORY_MAPPING then CATEGORY_MAPPING[raw] else raw
  }

  /** Every alias maps to a category name of the taxonomy. */
  lemma MappingTargetsAreCategoryNames()
    ensures forall k :: k in CATEGORY_MAPPING ==> CATEGORY_MAPPING[k] in Names(CATEGORIES)
  {
    ShippedNames();
  }

  /** Normalizing twice is normalizing once: every target of the table maps
      to itself. */
  lemma NormalizeIdempotent(raw: string)
    ensures Normalize(Normalize(raw)) == Normalize(raw)
  {
  }

  /** A label outside the table is kept as it is. */
  lemma NormalizeUnknown(raw: string)
    requires raw !in CATEGORY_MAPPING
    ensures Normalize(raw) == raw
  {
  }

  /** Every target of the alias table is already stripped. */
  lemma MappingTargetsAreStripped()
    ensures forall k :: k in CATEGORY_MAPPING ==> Strip(CATEGORY_MAPPING[k]) == CATEGORY_MAPPING[k]
  {
    MappingTargetsAreCategoryNames();
    ShippedNames();
    forall v | v in Names(CATEGORIES)
      ensures Strip(v) == v
    {
      StripTrimmed(v);
    }
  }

  /** `category_mapping.get(raw.strip(), raw.strip())` for the row's
      category. */
  function RowLabel(r: Row): string
    requires r.category.Some?
  {
    Normalize(Strip(r.category.value))
  }

  /** A training label is clean: stripping or normalizing it again changes
      nothing. */
  lemma RowLabelClean(r: Row)
    requires r.category.Some?
    ensures Strip(RowLabel(r)) == RowLabel(r)
    ensures Normalize(RowLabel(r)) == RowLabel(r)
  {
    NormalizeIdempotent(Strip(r.category.value));
    StripIdempotent(r.category.value);
    MappingTargetsAreStripped();
  }

  /** The stripped, normalized labels of the cleaned rows. */
  function Labels(rows: seq<Row>): (labels: seq<string>)
    requires forall i :: 0 <= i < |rows| ==> Usable(rows[i])
    ensures |labels| == |rows|
    ensures forall i :: 0 <= i < |rows| ==> Usable(rows[i]) && labels[i] == RowLabel(rows[i])
  {
    seq(|rows|, i requires 0 <= i < |rows| && Usable(rows[i]) => RowLabel(rows[i]))
  }

  /** Every training label is clean: stripping or normalizing it again
      changes nothing. */
  lemma LabelsClean(rows: seq<Row>)
    requires forall i :: 0 <= i < |rows| ==> Usable(rows[i])
    ensures forall i :: 0 <= i < |rows| ==>
      Strip(Labels(rows)[i]) == Labels(rows)[i] && Normalize(Labels(rows)[i]) == Labels(rows)[i]
  {
    forall i | 0 <= i < |rows|
      ensures Strip(Labels(rows)[i]) == Labels(rows)[i] && Normalize(Labels(rows)[i]) == Labels(rows)[i]
    {
      RowLabelClean(rows[i]);
    }
  }

  /** The training labels are the stripped, normalized categories of exactly
      the usable rows. */
  lemma LabelsOfUsableRows(rows: seq<Row>)
    ensures forall y :: y in Labels(UsableRows(rows)) <==>
      exists r :: r in rows && Usable(r) && y == RowLabel(r)
  {
    var kept := UsableRows(rows);
    UsableRowsMembers(rows);
    forall y | y in Labels(kept)
      ensures exists r :: r in rows && Usable(r) && y == RowLabel(r)
    {
      LabelOfKeptRow(kept, y);
    }
    forall r | r in rows && Usable(r)
      ensures RowLabel(r) in Labels(kept)
    {
      KeptRowLabel(kept, r);
    }
  }

  lemma LabelOfKeptRow(kept: seq<Row>, y: string)
    requires forall i :: 0 <= i < |kept| ==> Usable(kept[i])
    requires y in Labels(kept)
    ensures exists r :: r in kept && Usable(r) && y == RowLabel(r)
  {
    var i :| 0 <= i < |kept| && Labels(kept)[i] == y;
    assert kept[i] in kept;
  }

  lemma KeptRowLabel(kept: seq<Row>, r: Row)
    requires forall i :: 0 <= i < |kept| ==> Usable(kept[i])
    requires r in kept
    ensures Usable(r) && RowLabel(r) in Labels(kept)
  {
    var i :| 0 <= i < |kept| && kept[i] == r;
    assert Labels(kept)[i] == RowLabel(r);
  }

  /** Python's `<` on strings: lexicographic by code point, a proper prefix
      coming first. */
  predicate LexLess(a: string, b: string) {
    if a == [] then b != []
    else if b == [] then false
    else if a[0] != b[0] then a[0] < b[0]
    else LexLess(a[1..], b[1..])
  }

  lemma {:induction false} LexLessIrreflexive(a: string)
    ensures !LexLess(a, a)
  {
    if a != [] {
      LexLessIrreflexive(a[1..]);
    }
  }

  lemma {:induction false} LexLessAsymmetric(a: string, b: string)
    requires LexLess(a, b)
    ensures !LexLess(b, a)
  {
    if a != [] && a[0] == b[0] {
      LexLessAsymmetric(a[1..], b[1..]);
    }
  }

  lemma {:induction false} LexLessTransitive(a: string, b: string, c: string)
    requires LexLess(a, b) && LexLess(b, c)
    ensures LexLess(a, c)
  {
    if a != [] && a[0] == b[0] && b[0] == c[0] {
      LexLessTransitive(a[1..], b[1..], c[1..]);
    }
  }

  /** Distinct strings are ordered one way or the other. */
  lemma {:induction false} LexLessTotal(a: string, b: string)
    requires a != b
    ensures LexLess(a, b) || LexLess(b, a)
  {
    if a != [] && b != [] && a[0] == b[0] {
      assert a == [a[0]] + a[1..] && b == [b[0]] + b[1..];
      LexLessTotal(a[1..], b[1..]);
    }
  }

  predicate StrictlySorted(s: seq<string>) {
    forall i, j :: 0 <= i < j < |s| ==> LexLess(s[i], s[j])
  }

  /** `x` put into its place in the strictly sorted `s`, unless already there. */
  function Insert(x: string, s: seq<string>): seq<string> {
    if s == [] then [x]
    else if x == s[0] then s
    else if LexLess(x, s[0]) then [x] + s
    else [s[0]] + Insert(x, s[1..])
  }

  lemma {:induction false} InsertSpec(x: string, s: seq<string>)
    requires StrictlySorted(s)
    ensures StrictlySorted(Insert(x, s))
    ensures forall y :: y in Insert(x, s) <==> y == x || y in s
  {
    if s != [] && x != s[0] {
      if LexLess(x, s[0]) {
        var r := [x] + s;
        forall i, j | 0 <= i < j < |r|
          ensures LexLess(r[i], r[j])
        {
          if i == 0 && j > 1 {
            LexLessTransitive(x, s[0], s[j - 1]);
          }
        }
      } else {
        LexLessTotal(x, s[0]);
        InsertSpec(x, s[1..]);
        var rest := Insert(x, s[1..]);
        var r := [s[0]] + rest;
        forall i, j | 0 <= i < j < |r|
          ensures LexLess(r[i], r[j])
        {
          if i == 0 {
            assert rest[j - 1] in rest;
            if rest[j - 1] != x {
              var k :| 0 <= k < |s[1..]| && s[1..][k] == rest[j - 1];
              assert s[k + 1] == rest[j - 1];
            }
          }
        }
        assert s == [s[0]] + s[1..];
      }
    }
  }

  /** `sorted(list(set(labels)))`. */
  function SortedDistinct(labels: seq<string>): seq<string> {
    if labels == [] then []
    else Insert(labels[|labels| - 1], SortedDistinct(labels[..|labels| - 1]))
  }

  /** The label list is strictly sorted (so free of repeats) and holds
      exactly the labels that occur. */
  lemma {:induction false} SortedDistinctSpec(labels: seq<string>)
    ensures StrictlySorted(SortedDistinct(labels))
    ensures forall y :: y in SortedDistinct(labels) <==> y in labels
  {
    if labels != [] {
      var init := labels[..|labels| - 1];
      SortedDistinctSpec(init);
      InsertSpec(labels[|labels| - 1], SortedDistinct(init));
      assert labels == init + [labels[|labels| - 1]];
    }
  }

  /** A strictly sorted list is determined by its elements, so the label list
      is the only strictly sorted list of the labels that occur. */
  lemma {:induction false} StrictlySortedUnique(s: seq<string>, r: seq<string>)
    requires StrictlySorted(s) && StrictlySorted(r)
    requires forall y :: y in s <==> y in r
    ensures s == r
  {
    assert s != [] ==> s[0] in s;
    assert r != [] ==> r[0] in r;
    if s != [] && r != [] {
      if s[0] != r[0] {
        assert s[0] in s && r[0] in r;
        var i :| 0 <= i < |r| && r[i] == s[0];
        var j :| 0 <= j < |s| && s[j] == r[0];
        LexLessAsymmetric(r[0], s[0]);
      } else {
        forall y
          ensures y in s[1..] <==> y in r[1..]
        {
          SortedTailMembers(s, y);
          SortedTailMembers(r, y);
        }
        StrictlySortedUnique(s[1..], r[1..]);
        assert s == [s[0]] + s[1..] && r == [r[0]] + r[1..];
      }
    }
  }

  /** In a strictly sorted list the tail holds everything but the head. */
  lemma SortedTailMembers(s: seq<string>, y: string)
    requires StrictlySorted(s) && s != []
    ensures y in s[1..] <==> y in s && y != s[0]
  {
    if y in s[1..] {
      var k :| 0 <= k < |s[1..]| && s[1..][k] == y;
      assert s[k + 1] == y;
      if y == s[0] {
        LexLessIrreflexive(y);
      }
    }
    assert s == [s[0]] + s[1..];
  }
}
