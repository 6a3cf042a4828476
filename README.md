# Resume category classifier: keyword engine and model tiers

This project models the classification core of the resume scanner backend
(`backend/app/main.py`). The scanner assigns a résumé's text a job category
and lists the skills it mentions. The category is one of the labels the
trained model learnt from its dataset, which can include labels outside the
taxonomy. Failing that, it is one of the seven taxonomy categories, or
"General" when no keyword matches. The model covers:

- **The taxonomy** (`Taxonomy`): seven categories, each with an ordered list of weighted keywords.
- **The matching rule** (`Matching`):
  - a keyword containing a space matches as a substring of the lower-cased text;
  - any other keyword must match the regular expression `\b<keyword>\b`.
- **`extract_skills`** (`SkillExtraction`): every matching keyword once, in taxonomy order, title-cased, capped at fifteen, with a two-item default.
- **The heuristic tier of `predict_category`** (`Heuristic`): weighted scores per category, a first-strict-maximum winner, and a clamped confidence.
- **The training data rules** (`Training`): the row filter, label stripping and aliasing, and the sorted distinct label list.
- **The model state and tier selection** (`Predictor`): the two module globals as a class, training as a method that fills or clears them, and prediction that falls back to the heuristic on any failure of the model tier.

Python's string operations are modelled over ASCII (`AsciiText`): `lower`, `title` (digits are uncased, so `k8s` becomes `K8S`), `strip`, and the `\w` class.

`\b` is modelled exactly as the regular-expression engine defines it: position `j` is a boundary when exactly one of positions `j-1` and `j` holds a word character, and positions outside the text count as non-word. As a consequence:

- `c++` and `c#` match only when a word character follows them;
- `.net` matches only when a word character precedes it.

`Matching.NonWordEndNeedsWordAfter`, `Matching.NonWordStartNeedsWordBefore` and `Matching.CppAloneDoesNotMatch` state this.

Weights are exact `real`s. Every shipped weight is a multiple of 0.5, so the source's floating-point sums of them are exact too.

The learning library is seen only through what it returns:

- a fitted pipeline is a function from text to either probabilities or an exception;
- fitting yields a pipeline or fails;
- cross-validation raises or not.

Three details of the code worth noting:

- The heuristic tier's skills come from the winning category's own matches, not from `extract_skills` (main.py:186, 191).
- An exception from cross-validation, which runs after the pipeline is stored, clears both globals as well (main.py:354-367).
- With fewer than ten usable rows, or a dataset missing a column, training returns early and leaves the globals as they were (main.py:291-301). They are `None` only because they start that way.

## Model

| member | source | states |
|---|---|---|
| AsciiText.Lower | backend/app/main.py:160 | `text.lower()` keeps the length, leaves no upper-case letter, lower-cases each character and is the identity on lower-case text |
| AsciiText.TitleCaseAt | backend/app/main.py:191 | `str.title` upper-cases the first letter of every run of letters, lower-cases every other letter and keeps every other character |
| AsciiText.LowerOfTitleCase | backend/app/main.py:210 | lower-casing undoes title-casing on a lower-case keyword |
| AsciiText.TitleCaseInjective | backend/app/main.py:210 | distinct lower-case keywords render as distinct skills |
| AsciiText.TitleCaseExample | backend/app/main.py:210 | `scikit-learn` renders as `Scikit-Learn` |
| AsciiText.Strip | backend/app/main.py:304 | the stripped label starts and ends with a non-space character, and is empty for an all-space label |
| AsciiText.StripIsSlice | backend/app/main.py:304 | `strip` removes exactly a leading and a trailing run of white space |
| AsciiText.StripTrimmed | backend/app/main.py:304 | a string with no white space at either end is left unchanged |
| AsciiText.StripIdempotent | backend/app/main.py:304 | stripping twice is stripping once |
| Matching.ContainsFrom | backend/app/main.py:173 | the substring test holds iff the phrase occurs at some position |
| Matching.SearchWordFrom | backend/app/main.py:178-179 | the regular-expression search succeeds iff the keyword occurs with a word boundary on both sides |
| Matching.KeywordMatches | backend/app/main.py:171-181 | a phrase matches iff it occurs; any other keyword matches iff it occurs between two word boundaries |
| Matching.GoNotInAlgorithm | backend/app/main.py:177-179 | `go` does not match inside `algorithm` |
| Matching.GoInSentence | backend/app/main.py:177-179 | `go` matches `I know Go well` after lower-casing |
| Matching.PhraseInSentence | backend/app/main.py:171-175 | `machine learning` matches as a substring of a sentence |
| Matching.NonWordEndNeedsWordAfter | backend/app/main.py:178-179 | a keyword ending in a non-word character matches only when a word character follows it |
| Matching.CppAloneDoesNotMatch | backend/app/main.py:83 | `c++` does not match the text `c++` |
| Matching.NonWordStartNeedsWordBefore | backend/app/main.py:178-179 | a keyword starting with a non-word character matches only when a word character precedes it |
| Matching.MatchedKeywordIsLowerCase | backend/app/main.py:198-208 | a keyword that matches the lower-cased text is lower case |
| Taxonomy.MaxWeight | backend/app/main.py:189 | `max(weight …)` is one of the weights and no weight exceeds it |
| Taxonomy.MaxPossibleScore | backend/app/main.py:189 | the sum of per-category maximum weights is non-negative when the weights are positive |
| Taxonomy.ShippedNames | backend/app/main.py:72-124 | the seven category names, in order |
| Taxonomy.ShippedFacts | backend/app/main.py:72-124 | every weight of a shipped category lies in (0, 3.0], no keyword is `teamwork`, and the first keyword weighs 3.0 |
| Taxonomy.ShippedWellFormed | backend/app/main.py:72-124 | the shipped names are distinct and the weights positive |
| Taxonomy.ShippedDistinct | backend/app/main.py:72-124 | no shipped category lists the same keyword twice |
| Taxonomy.NoDefaultSkillKeyword | backend/app/main.py:72-124 | no shipped keyword is `teamwork`, the second default skill |
| Taxonomy.MaxPossibleOfThrees | backend/app/main.py:189 | categories whose largest weight is 3.0 sum to 3.0 per category |
| Taxonomy.ShippedMaxPossibleScore | backend/app/main.py:189 | the shipped table's per-category maximum weights sum to 21.0 |
| SkillExtraction.KeywordsInOrderMembers | backend/app/main.py:200-201 | the walk visits exactly the keywords of the taxonomy |
| SkillExtraction.MatchingInMembers | backend/app/main.py:203-208 | the filtered keywords are exactly the walked keywords that match |
| SkillExtraction.MatchingInDistinct | backend/app/main.py:168-181 | filtering a keyword list without repeats yields a list without repeats |
| SkillExtraction.FirstIndex | backend/app/main.py:204 | the first position of a present element |
| SkillExtraction.DedupFirstOccurrences | backend/app/main.py:204-209 | the `not in matched` check keeps every keyword exactly once, in the order of first occurrence |
| SkillExtraction.MatchingInFirstIndex | backend/app/main.py:200-208 | filtering keeps the relative order of first occurrences |
| SkillExtraction.CollectedKeywords | backend/app/main.py:199-209 | the collected list holds exactly the matching taxonomy keywords, each once, in first-occurrence taxonomy order |
| SkillExtraction.Render | backend/app/main.py:210-211 | the result is non-empty and at most fifteen long; it is the default list when nothing matched, and otherwise the title-cased matches, truncated |
| SkillExtraction.RenderDistinct | backend/app/main.py:210 | distinct lower-case matches render as distinct skills |
| SkillExtraction.RenderDefaultIffEmpty | backend/app/main.py:210-211 | when `teamwork` cannot be matched, the default list appears iff nothing matched |
| SkillExtraction.TeamworkNotListed | backend/app/main.py:200-201 | the walk never meets `teamwork` in a taxonomy that lacks it |
| SkillExtraction.MatchedAreLowerCase | backend/app/main.py:198-209 | every collected keyword is lower case |
| SkillExtraction.SkillsDistinct | backend/app/main.py:196-211 | `extract_skills` never lists a skill twice |
| SkillExtraction.SkillsDefaultIffNoMatch | backend/app/main.py:196-211 | `extract_skills` returns `["Communication", "Teamwork"]` iff no taxonomy keyword matches |
| SkillExtraction.CollectStep | backend/app/main.py:203-209 | one loop step appends the keyword iff it matches and is not yet collected |
| SkillExtraction.KeywordStep | backend/app/main.py:203-209 | one step of the inner loop appends the keyword to the collected list iff it matches and is not yet collected |
| SkillExtraction.CollectMatches | backend/app/main.py:199-209 | the nested collecting loops produce the deduplicated matches of the taxonomy walk |
| SkillExtraction.ExtractSkills | backend/app/main.py:196-211 | `extract_skills(text)` renders the collected matches of the lower-cased text |
| Heuristic.KeywordScoreSign | backend/app/main.py:166-181 | with positive weights, a score is non-negative and positive iff some keyword matched |
| Heuristic.CategoryScoreSign | backend/app/main.py:166-181 | the same for a whole category |
| Heuristic.BestOfSpec | backend/app/main.py:161-186 | the best score bounds every category score; a positive best belongs to the first category reaching it, with its name and matches; a zero best leaves "General" with nothing matched |
| Heuristic.GeneralIffNoPositiveScore | backend/app/main.py:161-186 | the best score stays 0.0 iff no category scores above zero |
| Heuristic.Confidence | backend/app/main.py:190 | the confidence lies in [0.5, 0.95] |
| Heuristic.ConfidenceMonotone | backend/app/main.py:190 | the confidence does not decrease as the best score grows, and is 0.5 at a score of zero |
| Heuristic.ConfidenceSmallTaxonomy | backend/app/main.py:190 | with a divisor of 10.0 the confidence is `0.5 + best / 10` capped at 0.95, reached from 4.5 on |
| Heuristic.ShippedConfidence | backend/app/main.py:189-190 | with the shipped table the divisor is 10.0 |
| Heuristic.GeneralIffNoMatch | backend/app/main.py:161-186 | the loop ends on "General" iff no keyword matches, and then with score 0.0 and no matches |
| Heuristic.HeuristicGeneralIffNoMatch | backend/app/main.py:158-193 | the heuristic answers "General" iff no shipped keyword matches, and then with confidence 0.5 and the default skills |
| Heuristic.WinnerSkillsDistinct | backend/app/main.py:165-191 | when no category repeats a keyword, the winner's rendered matches (or the default list) repeat no skill |
| Heuristic.HeuristicSkillsDistinct | backend/app/main.py:158-193 | the heuristic tier never lists a skill twice |
| Heuristic.ScoreStep | backend/app/main.py:168-181 | one keyword adds its weight and itself iff it matches |
| Heuristic.BestCategory | backend/app/main.py:160-186 | the nested scoring loops compute the loop's best category, score and matches |
| Heuristic.PredictHeuristic | backend/app/main.py:158-193 | the heuristic tier returns the winner, its confidence and its rendered matches |
| Training.UsableRows | backend/app/main.py:296-297 | the cleaned dataset is no longer than the original and every kept row is usable |
| Training.UsableRowsAppend | backend/app/main.py:296-297 | the filter keeps the original order: cleaning a concatenation concatenates the cleaned parts, and a single row is kept iff it is usable |
| Training.UsableRowsMembers | backend/app/main.py:296-297 | the kept rows are exactly the rows with both columns and a resume over fifty characters, each kept as many times as it occurs |
| Training.UsableRowsIdempotent | backend/app/main.py:296-297 | cleaning twice is cleaning once |
| Training.ResumeTexts | backend/app/main.py:303 | one text per kept row, each over fifty characters |
| Training.MappingTargetsAreCategoryNames | backend/app/main.py:307-326 | every alias maps to one of the seven category names |
| Training.NormalizeIdempotent | backend/app/main.py:328 | normalizing twice is normalizing once |
| Training.NormalizeUnknown | backend/app/main.py:328 | a label outside the alias table passes through unchanged |
| Training.MappingTargetsAreStripped | backend/app/main.py:307-328 | every alias target is already stripped |
| Training.RowLabelClean | backend/app/main.py:304-328 | a row's label is clean: stripping or normalizing it again changes nothing |
| Training.LabelsClean | backend/app/main.py:304-328 | every training label is clean: stripping or normalizing it again changes nothing |
| Training.LabelsOfUsableRows | backend/app/main.py:296-328 | the training labels are exactly the stripped, normalized categories of the usable rows |
| Training.LexLessIrreflexive | backend/app/main.py:329 | no string sorts before itself |
| Training.LexLessAsymmetric | backend/app/main.py:329 | string order is asymmetric |
| Training.LexLessTransitive | backend/app/main.py:329 | string order is transitive |
| Training.LexLessTotal | backend/app/main.py:329 | distinct strings are ordered one way or the other |
| Training.InsertSpec | backend/app/main.py:329 | insertion keeps a list strictly sorted and adds exactly the new element |
| Training.SortedDistinctSpec | backend/app/main.py:329 | `sorted(list(set(labels)))` is strictly sorted and holds exactly the labels that occur |
| Training.StrictlySortedUnique | backend/app/main.py:329 | a strictly sorted list is determined by its elements |
| Predictor.FirstArgMax | backend/app/main.py:134 | `argmax` is the first index of a largest probability |
| Predictor.ModelTierAnswer | backend/app/main.py:130-150 | when the model answers, the category is the label of the first most probable class, the confidence its probability, and the skills those of `extract_skills`, none repeated |
| Predictor.FallbackToHeuristic | backend/app/main.py:130-158 | a missing model, an inference exception, an empty probability vector or an index without a label yields exactly the heuristic answer |
| Predictor.ConfidenceIsProbability | backend/app/main.py:136-190 | the confidence lies in [0, 1] whenever the model's probabilities do |
| Predictor.TooFewRowsLeavesStateAlone | backend/app/main.py:299-301 | fewer than ten usable rows leave the globals as they were |
| Predictor.TrainedLabels | backend/app/main.py:296-329 | a successful run had at least ten usable rows and publishes a non-empty, strictly sorted list of exactly their normalized labels, each already stripped and normalized |
| Predictor.PredictedSkills | backend/app/main.py:127-211 | whichever tier answers, the skill list is non-empty, at most fifteen long and repeats no skill |
| Predictor.ModelState.constructor | backend/app/main.py:251-252 | both globals start as `None` |
| Predictor.ModelState.LoadAndTrain | backend/app/main.py:255-367 | early returns keep the globals; a read, fit or cross-validation failure clears both; success sets both; they are never half-set |
| Predictor.ModelState.Predict | backend/app/main.py:127-193 | `predict_category` uses the model only when both globals are set and falls back to the heuristic on any failure |

## Left out

- PDF text extraction, the web application, its routes and upload checks, the chat proxy and `.env` loading: I/O and network. The extracted text is the model's input string.
- Locating the dataset file and `pd.read_csv`: filesystem and CSV parsing. Their outcome is the `Dataset` parameter (not found, read error, or columns and rows).
- TF-IDF and logistic-regression construction, `fit`, `predict_proba` and `cross_val_score`: numerics of a foreign library. They are function-typed parameters.
- Predictor.ModelTierAnswer: not modelled is the top-three diagnostic list (main.py:139-141), which only feeds a log message. It indexes the label list at the three most probable classes. It can raise, and so divert to the heuristic, only when the model returns more probabilities than there are labels. A pipeline fitted on that label list returns exactly one probability per label.
- `round(confidence, 2)` and every `print`: float formatting and logging. Confidences are exact reals before rounding.
- NaN probabilities: `argmax` is modelled on reals.
- Full Unicode behaviour of `lower`, `title`, `strip` and `\w`: characters outside ASCII count as uncased, non-word and non-space.
- `astype(str)` on non-string cells: rows hold strings or nothing.
- Concurrency between training at start-up and prediction: each call is modelled as atomic.
