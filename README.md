# Voice-driven recipe filter: the non-UI pipeline

The program records a few seconds of speech, transcribes it with a
speech-recognition model, translates the transcript into Polish word by
word, detects the catalog ingredients it names by fuzzy matching, and
lists the recipes that cover the detected ingredients. This project models
the part of `main.py` that does not touch audio, threads or widgets:

- `Catalog`: the 25 recipes of `RECIPES`, verbatim, and the set of all their ingredient names.
- `RecipeFilter`: `filter_recipes`. It is a method with the source's loop, proved
  against a catalog-order selection function. The lemmas prove:
  - which recipes it selects and in what order;
  - that an empty request selects nothing;
  - that every recipe is found from its own ingredients;
  - that enlarging a request only narrows the result.
  It also works through the request `["pomidor", "cebula", "ser"]`.
- `Similarity`: `is_similar`, i.e. `SequenceMatcher(None, a, b).ratio() >= 0.8`.
  - M is difflib's matching-block total, defined by the recursive longest-block
    decomposition. Longest means the largest block, then the earliest in `a`,
    then the earliest in `b`.
  - The test is stated in integers: `5*M >= 2*(|a|+|b|)`, and it is true for two
    empty strings.
- `Extractor`: the ingredient-detection double loop of `TranscribeThread.run`, lifted
  into a method of (text, vocabulary). It is proved against a fold, and the fold
  is proved equal to an independent reference: every (token, entry) hit in loop
  order, keeping only first occurrences.
- `Translation`: `translate_words_separately`, against a translation service
  given as two functions.
  - The first constructs a translator for a (source, target) pair, or fails.
  - The second gives the translator's reply for one word: a translation, a
    failure, or a value that is not a string.
- `Pipeline`: the rest of the run.
  - The speech-model options follow from the language hint.
  - The transcript is stripped.
  - Translation is skipped only for the hint `"pl"`. With `"auto"` the detected
    language is the source, even when that language is Polish. A translation
    that raises falls back to the text.
  - The detected ingredients come from the translation.
  - The speech model and the translation service are parameters of `Run`.
  - The vocabulary `list(set(...))` is a parameter too: any duplicate-free
    listing of exactly the catalog's ingredients, because a Python set's
    order is not fixed.
- `Text`: the string primitives the pipeline uses.
  - `str.lower` is modelled for ASCII, Latin-1 and Latin Extended-A.
  - `str.split()` and `str.strip()` use Python's whitespace set.
  - The single-space join and the substring test `in` are modelled as well.

## Behaviour worth knowing

- The request `["pomidor", "cebula", "ser"]` selects "Sałatka grecka"
  (main.py:16). It does not select "Kanapka z serem" (main.py:19) or
  "Omlet warzywny" (main.py:23), although each shares ingredients with the
  request: the first has no ingredient that matches "pomidor" and the
  second none that matches "ser", so the test at main.py:48 rejects both.
- The vocabulary entries are compared as they are written. Only the
  translated text is lower-cased (main.py:113, 118); when translation is
  skipped or falls back, that text is the transcript itself.
- A token adds every similar vocabulary entry that is not yet detected; the
  inner loop does not stop at the first hit (main.py:117-120).
- Only the hint `"pl"` skips translation (main.py:103). With `"auto"`, a
  transcript detected as Polish is still sent to the translator with
  source `"pl"`.
- The threshold is inclusive: a ratio of exactly 0.8 counts as similar
  (main.py:53).

## Model

| member | source | states |
|---|---|---|
| Catalog.AllIngredients | main.py:111 | a name is listed exactly when some catalog recipe has it as an ingredient |
| Catalog.CatalogShape | main.py:15-41 | the catalog constant `Recipes` holds the 25 recipes, each listing three to five ingredients |
| Catalog.IsVocabulary | main.py:111-112 | definition: a duplicate-free listing of exactly the catalog's ingredient names, in any order, as `list(set(...))` gives |
| Text.LowerChar | main.py:48 | lower-casing keeps whitespace as whitespace and fixes every ASCII lower-case letter |
| Text.Lower | main.py:113 | `str.lower()` keeps the length and lowers each character on its own |
| Text.IsSpace | main.py:56 | definition: the characters Python's `str.split()` and `str.strip()` treat as whitespace |
| Text.Words | main.py:113 | `str.split()` yields only non-empty tokens without whitespace, and yields none exactly when the text is all whitespace |
| Text.WordsAreRuns | main.py:113 | the tokens of `str.split()` are the text's maximal non-whitespace runs, in order: the text is the tokens interleaved with whitespace gaps, and each gap between two tokens is non-empty |
| Text.StripRemovesOuterSpace | main.py:100 | `strip()` returns a slice of the text with only whitespace before and after it, and the result neither starts nor ends with whitespace |
| Text.Strip | main.py:100 | definition of `str.strip()`: leading whitespace removed, then trailing whitespace |
| Text.JoinSpace | main.py:68 | definition of `" ".join`: the tokens in order, one space between neighbours |
| Text.WordsStrip | main.py:56 | `text.strip().split()` has the same tokens as `text.split()` |
| Text.WordsOfJoin | main.py:68 | splitting the single-space join of tokens gives the same tokens back |
| Text.WordsNormalised | main.py:68 | split, join and split again gives the tokens of the first split |
| Text.ContainsSelf | main.py:48 | every string contains itself |
| Text.Contains | main.py:48 | definition of the string `in` test: the needle occurs at some position of the haystack |
| RecipeFilter.FilterRecipes | main.py:43-50 | the loop returns the catalog-order selection of recipes that cover the request, or nothing for an empty request |
| RecipeFilter.Matches | main.py:48 | definition: the lower-cased requested name occurs in the lower-cased recipe ingredient, or the other way round |
| RecipeFilter.Covers | main.py:48 | definition of the `all(any(...))` test: every requested name matches some ingredient of the recipe |
| RecipeFilter.SelectBy | main.py:46-50 | definition of the loop's result: the catalog's recipes that pass the test, in catalog order |
| RecipeFilter.Selection | main.py:46-50 | definition: the recipes that cover the request, in catalog order |
| RecipeFilter.Filtered | main.py:43-50 | definition of the result: nothing for an empty request, otherwise the covering recipes in catalog order |
| RecipeFilter.EmptyRequest | main.py:44-45 | an empty request selects no recipe |
| RecipeFilter.SelectionPositions | main.py:46-50 | for any acceptance test, the selection is the catalog restricted to an increasing list of distinct positions, which are exactly the positions of the accepted recipes |
| RecipeFilter.SelectionMember | main.py:48 | a recipe is selected if and only if it is in the catalog and every requested name has an ingredient that contains it or is contained in it, ignoring case |
| RecipeFilter.CoversOwnIngredients | main.py:48 | a recipe covers its own ingredient list |
| RecipeFilter.OwnIngredientsFindRecipe | main.py:43-50 | asking for a catalog recipe's own non-empty ingredient list selects that recipe |
| RecipeFilter.CatalogRecipesFindThemselves | main.py:15-41 | each of the 25 recipes is selected by its own ingredients |
| RecipeFilter.EnlargingNarrows | main.py:48 | a recipe selected for a non-empty request is selected for every non-empty sub-request |
| RecipeFilter.ForeignNotContained | main.py:48 | a name with a letter that another name lacks in either case is not contained in it after lower-casing |
| RecipeFilter.NoMatch | main.py:48 | two names that each hold a letter the other lacks do not match in either direction |
| RecipeFilter.Uncovered | main.py:48 | a recipe whose ingredients all fail to match one requested name does not cover the request |
| RecipeFilter.GreekSaladSelected | main.py:16 | "Sałatka grecka" is selected for pomidor, cebula and ser |
| RecipeFilter.CheeseSandwichNotSelected | main.py:19 | "Kanapka z serem" is not selected for pomidor, cebula and ser |
| RecipeFilter.VegetableOmeletNotSelected | main.py:23 | "Omlet warzywny" is not selected for pomidor, cebula and ser |
| Similarity.FindBlock | main.py:53 | the scan returns a common block of the given length inside the ranges, and no such block starts earlier in scan order |
| Similarity.LongestUpTo | main.py:53 | the result is a common block of the largest length up to the bound, and no block of that length starts earlier |
| Similarity.LongestMatch | main.py:53 | the longest common block of the ranges, the earliest among the longest; none only when the ranges share no character |
| Similarity.MatchedIn | main.py:53 | the matched characters of two ranges never outnumber either range |
| Similarity.Matched | main.py:53 | M never exceeds the length of either string |
| Similarity.IsSimilar | main.py:52-53 | definition of `is_similar`: true for two empty strings, otherwise `5*M >= 2*(|a|+|b|)`, which is `ratio() >= 0.8` |
| Similarity.BlockBoundsMatched | main.py:53 | a common block of length k gives at least k matched characters |
| Similarity.ContainedFullyMatched | main.py:53 | when one string occurs in the other, M is the shorter length |
| Similarity.MatchedSelf | main.py:53 | a string matches itself in every character |
| Similarity.SimilarReflexive | main.py:52-53 | `is_similar(a, a)` always holds |
| Similarity.SimilarLengths | main.py:52-53 | similar strings have lengths within a factor of 3/2 of each other |
| Similarity.SimilarWhenContained | main.py:52-53 | when one string occurs in the other, they are similar if and only if their lengths are within 3/2 of each other |
| Similarity.CheeseIsNotWhiteCheese | main.py:24 | "ser" is not similar to "ser biały" |
| Similarity.ThresholdInclusive | main.py:52-53 | a ratio of exactly 0.8 ("olejem", "olej") is similar, and 0.75 ("ryżem", "ryż") is not |
| Extractor.ExtractIngredients | main.py:113-120 | the double loop returns the fold of the per-token vocabulary scans over the lower-cased tokens |
| Extractor.Added | main.py:119-120 | definition of the append-if-absent step: the entry is appended only when it is not yet detected |
| Extractor.ScanToken | main.py:117-120 | definition of the inner loop: the vocabulary scanned in order for one token, each similar entry added if absent |
| Extractor.ScanTokens | main.py:116-120 | definition of the outer loop: the inner scan applied to each token in turn, starting from nothing |
| Extractor.Tokens | main.py:113 | definition: the lower-cased text split on whitespace |
| Extractor.Extracted | main.py:113-120 | definition of the detected list: the per-token vocabulary scans folded over the tokens |
| Extractor.Hits | main.py:117-118 | the entries similar to one token are exactly the vocabulary entries similar to it |
| Extractor.AllHits | main.py:116-118 | an entry is hit exactly when it is in the vocabulary and similar to some token |
| Extractor.ScanTokenAddsHits | main.py:117-120 | the inner loop appends each hit of its token, unless it is already present |
| Extractor.ScanTokensIsDedupOfHits | main.py:116-120 | the loops give the first occurrences of all hits, in loop order |
| Extractor.AddAllProperties | main.py:119-120 | appending only absent items keeps the list duplicate-free, and it then holds the old items and the new ones |
| Extractor.DedupOrder | main.py:119-120 | keeping first occurrences keeps exactly the input's elements, ordered by where each first appears |
| Extractor.ExtractedNoDuplicates | main.py:114-120 | no ingredient is detected twice |
| Extractor.ExtractedMember | main.py:113-120 | an entry is detected if and only if it is in the vocabulary and some lower-cased token is similar to it |
| Extractor.ExtractedOrder | main.py:116-120 | detected entries follow the order of their first hit: by first matching token, then by vocabulary order |
| Extractor.BlankTextDetectsNothing | main.py:113-116 | empty or whitespace-only text detects nothing |
| Extractor.ExactTokenDetected | main.py:118-120 | a token equal to a vocabulary entry always detects it |
| Extractor.DetectedAreCatalogIngredients | main.py:111-120 | with the catalog vocabulary, every detected name is a catalog ingredient |
| Translation.Outputs | main.py:62-67 | the loop appends exactly one output per token |
| Translation.Strings | main.py:68 | the join has strings to join exactly when every output is a string, and then joins them in order |
| Translation.Output | main.py:63-67 | definition: a translation is kept, a failed word is kept as it was, and a non-string reply is kept as a non-string |
| Translation.JoinOutputs | main.py:68 | definition of the final join: the single-space join of the outputs, or a raise when one of them is not a string |
| Translation.TranslatedText | main.py:55-68 | definition of the result: the text itself when no translator can be built, otherwise the join of the per-token outputs |
| Translation.TranslateWordsSeparately | main.py:55-68 | the method returns the text when no translator can be built, and otherwise the join of the per-token outputs, raising when some output is not a string |
| Translation.NoTranslatorKeepsText | main.py:58-61 | a failed translator construction returns the text unchanged |
| Translation.OutputsAt | main.py:62-67 | output k is the translation of token k, or token k itself when translating it failed |
| Translation.JoinOfOutputs | main.py:62-68 | without non-string replies, the result is the single-space join of one output per token, in order: the translation, or the token kept verbatim on failure |
| Translation.AllFailuresNormalise | main.py:63-68 | when every word fails, the result is the whitespace-normalised text, which splits into the same tokens |
| Translation.NonStringRaises | main.py:64-68 | one non-string reply makes the whole call raise |
| Translation.TomatoOnionTokens | main.py:56 | "tomato onion" splits into "tomato" and "onion" |
| Translation.TomatoThenOnion | main.py:62-68 | with "tomato" translated and "onion" failing, a text with those tokens becomes "pomidor onion" |
| Translation.TomatoOnion | main.py:55-68 | "tomato onion" becomes "pomidor onion" when only "tomato" translates |
| Pipeline.OptionsFor | main.py:93-97 | the options force a language exactly when the hint is not "auto"; the forced language is the hint, with the task "transcribe" |
| Pipeline.LanguageOf | main.py:101 | definition: the detected language, or "unknown" when the result has none |
| Pipeline.TranslationSource | main.py:103-109 | translation is skipped exactly for the hint "pl"; the source is the detected language for "auto" and the hint otherwise |
| Pipeline.Normalised | main.py:103-109 | definition of `translated`: the text when the hint is "pl" or the translation raises, otherwise the translation |
| Pipeline.Run | main.py:93-120 | the run returns the stripped transcript, its translation with every fallback, and the ingredients extracted from the translation; for "pl" the translation is the text; the detected list is duplicate-free and holds only catalog ingredients |
| Pipeline.VocabularyExists | main.py:111-112 | a duplicate-free listing of exactly the catalog's ingredients exists |
| Pipeline.PolishHintSkipsTranslation | main.py:108-109 | the hint "pl" leaves the text untranslated, whatever the service does |
| Pipeline.BlankStaysBlank | main.py:103-109 | a blank text stays blank through translation and every fallback |
| Pipeline.BlankTranscriptFindsNothing | main.py:100-120 | a blank transcript detects no ingredient, and the model's stages composed then select no recipe; the program itself delivers no result in that case, because the emit at main.py:123 runs once per token |

## Left out

- The Qt windows, the progress timer, file dialogs and navigation between windows are user interface.
- `RecorderThread` is audio capture from a device.
- Loading and running the speech model are an external model. `Run` takes the transcription result as a function of the options.
- The network calls of the translation service are left out. The service is a pair of functions fixed for the whole call, so a service that answers differently over time is not modelled.
- The run emits its result from inside the word loop (main.py:123). It therefore emits once per token with the list found so far, and never when there are no tokens. Signal emission and threads are not modelled; `Run` returns the final values once.
- The SSL-verification override at main.py:10 is not modelled.
- `ratio()` is computed in floating point in the source. The model uses the exact integer comparison, which gives the same answer for strings of realistic length.
- Similarity.IsSimilar: `is_similar` has a `threshold` parameter with default 0.8. Only that default is modelled, which is the value the one call at main.py:118 uses.
- The autojunk heuristic of difflib applies only when the second string has 200 or more characters. It is not modelled, so `Similarity.Matched` is exact only below that length.
- Text.LowerChar: lower-cases only ASCII, Latin-1 and Latin Extended-A letters. Other scripts are left as they are, and so is the special case of U+0130.
- RecipeFilter.GreekSaladSelected: the model proves that "Sałatka grecka" is selected for pomidor, cebula and ser, and that "Kanapka z serem" and "Omlet warzywny" are not. It does not prove that the other 22 recipes are excluded.
- Pipeline.Run: the vocabulary order is a parameter constrained only to list each catalog ingredient once. The order Python's set would produce is not modelled.
