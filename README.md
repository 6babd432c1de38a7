# Reklamblad in Dafny

Reklamblad collects the weekly deals of Swedish grocery chains and matches them against
recipe ingredients. This project models the pure and bookkeeping core of that pipeline and
proves what it promises:

- the ingredient-to-deal matcher of `match_recipes.py`:
  - `normalize` and `match_score` with its precedence of tiers;
  - `find_matching_deals` with its threshold filter and stable sort;
  - `analyze_recipe`;
  - the ranking of the report in `main`;
- the record validators of `validate_data.py`, from parsed JSON onward;
- offer discovery in publication JSON, offer-text parsing, paged publications and the
  first-wins deduplication of `scrape_deals.py`;
- the ingredient simplifiers and instruction cleaners of `scrape_hellofresh.py` and
  `scrape_recipes.py`;
- `parse_recipe` and the rating filter and sort of `scrape_tasteline.py`;
- the store-index compaction of `optimize_data.py`;
- the counting and bucketing statistics of `monitor.py`;
- the `ErrorTracker` class of `logger.py`.

## How the model is built

**Modules.** There is one Dafny module per source file:

| source file | module |
|---|---|
| `match_recipes.py` | `MatchRecipes`, plus `RecipeMatching` for `find_matching_deals`, `analyze_recipe` and `main` |
| `test_match_recipes.py` | `MatchRecipesTests` |
| `validate_data.py` | `ValidateData` |
| `scrape_deals.py` | `ScrapeDeals` |
| `scrape_hellofresh.py` | `ScrapeHellofresh` |
| `scrape_recipes.py` | `ScrapeRecipes` |
| `scrape_tasteline.py` | `ScrapeTasteline` |
| `optimize_data.py` | `OptimizeData` |
| `monitor.py` | `Monitor` |
| `logger.py` | `Logger` |

Shared modules hold what several files use:

- `Wrappers`: `Option`.
- `Text`: characters and strings over ASCII, å ä ö é à and the fraction glyphs, with Python's `lower`, `strip` and `split`.
- `Json`: a parsed JSON value, Python truthiness, `dict.get`, `d[key]`, and loops that can raise.
- `Seqs`: filters and first-occurrence keys.
- `Sorting`: a stable descending sort and `sorted()` on strings.
- `Patterns`: the regular-expression substitutions.

**Python semantics.** Python's dynamic behaviour is written out:

- Truthiness and `isinstance` tests are explicit cases on the JSON datatype.
- An exception the code would raise (a `KeyError` on `d[key]`, a `TypeError` from an unhashable key or from `sum` over a string) is the `Raised` case of `Checked<T>`.
- Parameters the source annotates (`dict`, `list[str]`) carry those types.

**Loops.** Loops stay loops. `find_matching_deals`, `analyze_recipe`, the validators, the
parse loops, the counting loops and the tracker's methods are Dafny methods. Each is proved
equal to a specification function, and the properties are lemmas about those functions.

**Where the code and its comments differ, the model follows the code:**

- `normalize` folds å/ä to a and ö to o.
- The ignore guard also fires on any prefix.
- The fuzzy tier returns `ratio * 0.7`, not a fixed 0.7.
- A deal without a name (`deal.get('name', '')`) is a substring of every ingredient, so it scores 0.9 against every ingredient of four or more characters that is not ignored (`MatchRecipes.NamelessDealScore`).

## Model

| member | source | states |
|---|---|---|
| MatchRecipes.Fold | match_recipes.py:60 | å and ä become a, ö becomes o, position by position; the length is kept |
| MatchRecipes.LeadingQualifier | match_recipes.py:61 | the qualifier found is one of the list, starts the text and is followed by whitespace; when none is found, no qualifier starts the text followed by whitespace |
| MatchRecipes.FindTrailing | match_recipes.py:62 | the match found is the leftmost place where whitespace, then a trailing qualifier, runs to the end; no earlier position starts one, and None means no position does |
| MatchRecipes.ScoreNormalized | match_recipes.py:71-109 | every score lies in [0, 1] and is one of 0, 1.0, 0.9, 0.85, 0.75 or a fuzzy score in (0.56, 0.7] |
| MatchRecipes.Normalize | match_recipes.py:56-63 | the specification of `normalize`; its properties are the NormalizeIsCanonical, NormalizeOneWord, NormalizeDrops*, NormalizeTwoWords, NormalizeCanonicalWord and NormalizeNotIdempotent rows |
| MatchRecipes.MatchScore | match_recipes.py:66-69 | `match_score(deal_name, ingredient)` on the raw names lies in [0, 1] |
| MatchRecipes.MatchScoreOf | match_recipes.py:68-69 | the score depends on the two names only through their normal forms |
| MatchRecipes.NormalizeIsCanonical | match_recipes.py:56-63 | the normal form has only lower-case characters, no å/ä/ö, and no whitespace at either end |
| MatchRecipes.DropTrailingTrimmed | match_recipes.py:62 | on a trimmed text, removing the trailing qualifier leaves a trimmed text |
| MatchRecipes.CleanedIsFolded | match_recipes.py:58-60 | when the folded, lower-cased text has no whitespace at its ends, stripping changes nothing |
| MatchRecipes.QualifiersNoSpace | match_recipes.py:61-62 | every leading and trailing qualifier is a single word without whitespace |
| MatchRecipes.LeadingQualifierAt | match_recipes.py:61 | when no qualifier contains whitespace and the text's first whitespace follows its first word, the qualifier found is that word if it is listed, and none otherwise |
| MatchRecipes.FindTrailingSkips | match_recipes.py:62 | positions inside a word start no trailing match: the search may skip to the word's end |
| MatchRecipes.TrailingWordAtRest | match_recipes.py:62 | on a text without whitespace from `j` on, a trailing qualifier ends at `j` exactly when the rest is a trailing qualifier |
| MatchRecipes.NoSpaceNoQualifier | match_recipes.py:61 | a text without whitespace has no leading or trailing qualifier to drop |
| MatchRecipes.TwoWordsTrailing | match_recipes.py:62 | for two words, the trailing rewrite removes the second one exactly when it is a trailing qualifier |
| MatchRecipes.LeadingWordDropped | match_recipes.py:61 | for a word, one space and a rest not starting with whitespace, the leading rewrite removes the word and the space exactly when the word is a leading qualifier |
| MatchRecipes.NormalizeOneWord | match_recipes.py:56-63 | a one-word text normalises to its lower-cased, folded form |
| MatchRecipes.NormalizeDropsLeading | match_recipes.py:61 | a leading qualifier and one word normalise to the word |
| MatchRecipes.NormalizeDropsTrailing | match_recipes.py:62 | a word that is not a leading qualifier, then a trailing qualifier, normalises to the word |
| MatchRecipes.NormalizeDropsOneQualifier | match_recipes.py:61 | of two leading qualifiers before a word, only the first is removed |
| MatchRecipes.CanonicalFixed | match_recipes.py:58-60 | canonical text is left alone by lower-casing and folding |
| MatchRecipes.NormalizeNotIdempotent | match_recipes.py:61 | `normalize` is not idempotent: for two leading qualifiers before a word, normalising twice gives the word, once does not |
| MatchRecipes.NormalizeTwoWords | match_recipes.py:56-63 | two words, neither a qualifier in its place, are kept as they are |
| MatchRecipes.NormalizeCanonicalWord | match_recipes.py:56-63 | a single word already in normal form normalises to itself |
| MatchRecipes.IgnoredScoresZero | match_recipes.py:71-72 | an ingredient whose normal form is, or starts with, an ignore word scores 0 against every deal |
| MatchRecipes.FalseMatchScoresZero | match_recipes.py:74-76 | a denylisted pair scores 0, whatever the later tiers would give |
| MatchRecipes.SubstringTier | match_recipes.py:81-83 | after the guards and equality, containment either way scores 0.9 once the ingredient has four characters |
| MatchRecipes.SynonymTier | match_recipes.py:85-89 | after the earlier tiers, two names in one synonym group score 0.85 |
| MatchRecipes.IgnoreWordsPrefixes | match_recipes.py:41-44 | every ignore word has at least two letters, and its first two form one of the listed pairs |
| MatchRecipes.NotIgnored | match_recipes.py:71 | an ingredient whose first two letters start no ignore word is not ignored |
| MatchRecipes.IgnoreWordsCanonical | match_recipes.py:41-44 | every ignore word is one word of lower-case letters without å, ä or ö |
| MatchRecipes.NotDenylisted | match_recipes.py:74-76 | when no pair has both patterns contained, the denylist does not apply |
| MatchRecipes.NotDenylistedIngredient | match_recipes.py:46-53 | an ingredient without r, b, a, o or f contains no denylisted ingredient pattern |
| MatchRecipes.ShortDealNotDenylisted | match_recipes.py:46-53 | a deal name of fewer than six characters contains no denylisted deal pattern |
| MatchRecipes.ScoreOneIffEqual | match_recipes.py:71-79 | a score of 1.0 happens exactly for equal names that are neither ignored nor denylisted |
| MatchRecipes.FuzzyTier | match_recipes.py:91-107 | a positive score under 0.75 comes from the fuzzy tier and equals `ratio * 0.7`; it reaches 0.6 exactly when the ratio is at least 6/7 |
| MatchRecipes.NotContainsChar | match_recipes.py:75 | a substring test fails when the pattern has a character the text lacks |
| MatchRecipes.NoTierScoresZero | match_recipes.py:71-109 | with both guards passed, the names different, no containment, no synonym group, no shared word, and one name of five characters or fewer, the score is 0 whatever the similarity |
| MatchRecipes.SingleWordsShareNothing | match_recipes.py:91-102 | two different single words share no word, so the word-overlap tier does not apply |
| MatchRecipes.NamelessDealScore | match_recipes.py:81-83 | a deal without a name scores 0.9 against every non-ignored ingredient of four or more characters |
| MatchRecipesTests.NormalizeLowercases | test_match_recipes.py:18-19 | normalize('KYCKLING') is 'kyckling' |
| MatchRecipesTests.NormalizeFoldsBrod | test_match_recipes.py:21-22 | normalize('Bröd') is 'brod' |
| MatchRecipesTests.NormalizeFoldsAgg | test_match_recipes.py:23 | normalize('Ägg') is 'agg' |
| MatchRecipesTests.NormalizeFoldsKott | test_match_recipes.py:24 | normalize('Kött') is 'kott' |
| MatchRecipesTests.NormalizeDropsFarsk | test_match_recipes.py:26-27 | normalize('Farsk lax') is 'lax' |
| MatchRecipesTests.NormalizeDropsFryst | test_match_recipes.py:28 | normalize('Fryst broccoli') is 'broccoli' |
| MatchRecipesTests.NormalizeDropsEkologisk | test_match_recipes.py:29 | normalize('Ekologisk mjölk') is 'mjolk' |
| MatchRecipesTests.NormalizeDropsSvensk | test_match_recipes.py:30 | normalize('Svensk potatis') is 'potatis' |
| MatchRecipesTests.NormalizeDropsTrailingFarsk | test_match_recipes.py:32-33 | normalize('Kyckling farsk') is 'kyckling' |
| MatchRecipesTests.NormalizeDropsTrailingFryst | test_match_recipes.py:34 | normalize('Lax fryst') is 'lax' |
| MatchRecipesTests.NormalizeHelHelLax | match_recipes.py:61 | 'hel hel lax' normalises to 'hel lax': only one leading qualifier goes |
| MatchRecipesTests.NormalizeHelHelLaxTwice | match_recipes.py:61 | normalising 'hel hel lax' twice gives 'lax' |
| MatchRecipesTests.KycklingIsNotFiltered | match_recipes.py:71-76 | 'kyckling' is not ignored and contains no denylisted ingredient pattern |
| MatchRecipesTests.ExactMatch | test_match_recipes.py:40-42 | match_score('kyckling', 'kyckling') is 1.0 |
| MatchRecipesTests.ExactMatchIgnoresCase | test_match_recipes.py:43 | match_score('Kyckling', 'kyckling') is 1.0 |
| MatchRecipesTests.IgnoreWordsNeverMatch | test_match_recipes.py:45-48 | match_score(word, word) is 0.0 for every ignore word |
| MatchRecipesTests.RiceCakesAreNotRice | test_match_recipes.py:54 | match_score('riskakor', 'ris') is 0.0 |
| MatchRecipesTests.SandwichToppingIsNotEgg | test_match_recipes.py:55 | match_score('palagg', 'agg') is 0.0 |
| MatchRecipesTests.BreadcrumbsAreNotBread | test_match_recipes.py:56 | match_score('strobrod', 'brod') is 0.0 |
| MatchRecipesTests.RiceIsInRiceCakes | match_recipes.py:74-83 | with the names the other way round, ingredient 'riskakor' and deal 'ris', the denylist does not apply and the score is 0.9 |
| MatchRecipesTests.DenylistedExactMatch | match_recipes.py:74-79 | the denylist runs before equality: a denylisted name scores 0 even against itself |
| MatchRecipesTests.SubstringMatch | test_match_recipes.py:58-67 | match_score('kycklingfilé', 'kyckling') is at least 0.8 and above 0.7 |
| MatchRecipesTests.OstPatterns | match_recipes.py:46-53 | of the denylisted ingredient patterns, 'ost' contains only 'ost', and 'parmesan' contains no 'dessertost' |
| MatchRecipesTests.SynonymMatchScore | test_match_recipes.py:69-71 | match_score('parmesan', 'ost') is above 0.7 |
| MatchRecipesTests.NoMatchBananKyckling | test_match_recipes.py:73-75 | match_score('banan', 'kyckling') is 0.0 for every similarity function |
| MatchRecipesTests.NoMatchMjolkTomat | test_match_recipes.py:76 | match_score('mjölk', 'tomat') is 0.0 for every similarity function |
| MatchRecipesTests.BananNotKycklingSynonym | match_recipes.py:85-89 | no synonym group holds both 'banan' and 'kyckling' |
| MatchRecipesTests.TomatNotMjolkSynonym | match_recipes.py:85-89 | no synonym group holds both 'mjolk' and 'tomat' |
| MatchRecipesTests.WordOverlap | test_match_recipes.py:78-81 | match_score('riven ost', 'ost parmesan') is above 0.5 |
| RecipeMatching.Tag | match_recipes.py:116-118 | one match per deal, in catalog order, carrying the deal, its score for the ingredient and the ingredient |
| RecipeMatching.FindMatchingDeals | match_recipes.py:112-128 | the loop and sort return the threshold-filtered matches sorted by score |
| RecipeMatching.MatchingDeals | match_recipes.py:112-128 | the specification of `find_matching_deals`; its properties are the MatchingDeals* rows |
| RecipeMatching.MatchingDealsSound | match_recipes.py:116-125 | every returned match is a catalog deal, tagged with the ingredient and its score, which reaches the threshold |
| RecipeMatching.MatchingDealsComplete | match_recipes.py:120-125 | every deal whose score reaches the threshold is returned |
| RecipeMatching.MatchingDealsPermutes | match_recipes.py:127 | the result is a permutation of the matches in catalog order |
| RecipeMatching.MatchingDealsSorted | match_recipes.py:127 | scores do not increase along the result |
| RecipeMatching.MatchingDealsStable | match_recipes.py:127 | matches with equal scores stay in catalog order |
| RecipeMatching.MatchingDealsThreshold | match_recipes.py:120 | a higher threshold gives a prefix of the result for a lower one, so no more matches |
| RecipeMatching.MatchingDealsHead | match_recipes.py:127 | the first match is the first candidate, in catalog order, with the highest score |
| RecipeMatching.MatchingDealsBest | match_recipes.py:127 | the first match scores at least as high as every deal of the catalog |
| RecipeMatching.MatchingDealsEmpty | match_recipes.py:112-128 | the result is empty exactly when no deal reaches the threshold |
| RecipeMatching.IgnoredNeverMatched | match_recipes.py:71-72 | an ignored ingredient has no matching deal at any positive threshold |
| RecipeMatching.EntriesRaisedPersists | match_recipes.py:138-149 | once an entry raises, the whole loop raises |
| RecipeMatching.AnalyzeRecipe | match_recipes.py:131-169 | the loop over `recipe.get('simplified_ingredients', [])` (absent, a list, a string or a dict) returns the analysis the specification function describes, and raises where iterating that value raises |
| RecipeMatching.Ingredients | match_recipes.py:133-138 | the loop runs over what Python iterates: nothing when the key is absent, a list's items, a string's characters, a dict's keys; it raises exactly when iterating raises (null, a bool, a number) |
| RecipeMatching.AnalysisRaised | match_recipes.py:133-151 | the analysis raises exactly when iterating the ingredients raises, or some ingredient's best match is a deal without a name |
| RecipeMatching.Analysis | match_recipes.py:131-169 | the specification of `analyze_recipe`; its properties are the AnalysisCounts, AnalysisOrder, AnalysisUnmatched, AnalysisBest, AnalysisPercentage, AnalysisRaised and AnalysisConsistent rows |
| RecipeMatching.EntryIngredients | match_recipes.py:144 | the ingredient of each matched entry, in order |
| RecipeMatching.EntriesIngredients | match_recipes.py:138-151 | there is one matched entry per ingredient that has a match, in ingredient order |
| RecipeMatching.EntriesBest | match_recipes.py:141-149 | each entry is built from the best match of its ingredient: the deal's name, price and store, and the score |
| RecipeMatching.EntriesRaised | match_recipes.py:145 | the analysis raises exactly when some ingredient's best match is a deal without a name |
| RecipeMatching.AnalysisCounts | match_recipes.py:153-164 | total_ingredients = len(simplified_ingredients) = matched_count + len(unmatched_ingredients) |
| RecipeMatching.AnalysisOrder | match_recipes.py:138-151 | the matched and the unmatched ingredients are the two filters of the ingredient list, in its order |
| RecipeMatching.AnalysisUnmatched | match_recipes.py:139-151 | an ingredient is unmatched exactly when no deal reaches the threshold 0.6 for it |
| RecipeMatching.IgnoredUnmatched | match_recipes.py:71-72 | with `match_score`, an ignored ingredient always ends up unmatched |
| RecipeMatching.AnalysisBest | match_recipes.py:141-148 | each entry's score is at least 0.6 and at least the score of every deal for that ingredient |
| RecipeMatching.AnalysisPercentage | match_recipes.py:153 | match_percentage is 0 without ingredients, otherwise matched/total*100, and lies in [0, 100] |
| RecipeMatching.PercentageBounds | match_recipes.py:153 | the percentage of a part of a whole lies in [0, 100] |
| RecipeMatching.AnalysisConsistent | match_recipes.py:153-164 | every analysis satisfies the count and range checks the validator applies |
| RecipeMatching.BuildReport | match_recipes.py:186-199 | the analysis loop and sort of `main` build the report the specification function describes, for recipes whose ingredient field has any type |
| RecipeMatching.Report | match_recipes.py:186-199 | the specification of the report of `main`; its properties are the ReportRanked, AnalysesSpec, ReportStable and ReportConsistent rows |
| RecipeMatching.ReportRanked | match_recipes.py:191 | the report ranks by (matched_count, match_percentage) descending and is a permutation of the analyses |
| RecipeMatching.AnalysesSpec | match_recipes.py:187-189 | before the sort there is one analysis per recipe, in order; the run raises exactly when one recipe's analysis does |
| RecipeMatching.ReportStable | match_recipes.py:191 | recipes with equal count and percentage keep their input order |
| RecipeMatching.ReportConsistent | match_recipes.py:186-198 | every analysis in the report is consistent |
| ValidateData.DealProblems | validate_data.py:13-53 | the specification of `validate_deal`; its properties are the DealProblemsValid, DealProblemsRaised and DealProblemsBounds rows |
| ValidateData.DealProblemsValid | validate_data.py:13-53 | a deal has no problems exactly when store and name are truthy, the name has 2 to 200 characters, a truthy price is a string and a truthy image is an http(s) URL |
| ValidateData.DealProblemsRaised | validate_data.py:38-39 | checking a deal raises exactly when the name is truthy but has no length |
| ValidateData.LengthProblemsBound | validate_data.py:38-43 | a name has at most one length problem, and a missing name has none |
| ValidateData.DealProblemsBounds | validate_data.py:26-51 | a deal has at most four problems; a missing name is reported as missing, never as too short |
| ValidateData.RecipeProblems | validate_data.py:56-108 | the specification of `validate_recipe`; its properties are the RecipeProblemsValid and RecipeIngredientFlagged rows |
| ValidateData.RecipeProblemsValid | validate_data.py:56-108 | a recipe has no problems exactly when name and url are present, the url is http(s), the ingredients are a list of strings, rating and reviews are non-negative numbers or null and servings is a string, an integer or null |
| ValidateData.RecipeIngredientFlagged | validate_data.py:88-90 | every ingredient that is not a string is reported by its position, and nothing else is |
| ValidateData.ValidateRecipe | validate_data.py:56-108 | the check-by-check loop reports the problems the specification function lists, in order |
| ValidateData.MatchProblemsValid | validate_data.py:111-152 | a match has no problems exactly when its required keys are present, the percentage is a number in [0, 100], `matched > total` is false as Python compares two numbers, two strings or two lists (absent ones count as 0), and the ingredient fields are lists |
| ValidateData.ListCountsCompared | validate_data.py:137-140 | counts that are lists are compared item by item: when the items agree up to the shorter length, the count problem is reported exactly when matched_count is longer |
| ValidateData.MatchProblems | validate_data.py:111-152 | the specification of `validate_recipe_match`; its properties are the MatchProblemsValid and ListCountsCompared rows |
| ValidateData.ValidateRecipeMatch | validate_data.py:111-152 | the loop reports the problems the specification function lists, in order; `matched > total` raises only for values Python cannot compare |
| ValidateData.DuplicatePositions | validate_data.py:188-193 | the duplicate loop reports, in order, the positions whose key an earlier deal already had |
| ValidateData.DuplicatesSpec | validate_data.py:188-193 | a deal is reported exactly when an earlier deal has the same (store, name); the first occurrence never is, and the number of reports is len(data) minus the number of distinct keys |
| ValidateData.NoDuplicates | validate_data.py:188-193 | no duplicate is reported exactly when no two deals share a store and name |
| ValidateData.DealsFileValid | validate_data.py:176-195 | a deals file is valid exactly when it is a non-empty array of well-formed deals with distinct keys |
| ValidateData.RecipesFileValid | validate_data.py:219-230 | a recipes file is valid exactly when it is a non-empty array of well-formed recipes |
| ValidateData.MatchesFileValid | validate_data.py:254-271 | a matches file is valid exactly when it is a dict whose `recipes` is an array of well-formed matches |
| ValidateData.DealsFileResult | validate_data.py:155-195 | the specification of `validate_deals_file` after parsing; its property is the DealsFileValid row |
| ValidateData.RecipesFileResult | validate_data.py:198-230 | the specification of `validate_recipes_file` after parsing; its property is the RecipesFileValid row |
| ValidateData.MatchesFileResult | validate_data.py:233-271 | the specification of `validate_recipe_matches_file` after parsing; its property is the MatchesFileValid row |
| ValidateData.ValidateDealsFile | validate_data.py:176-195 | a non-array is rejected with one error; otherwise the record loop, then the duplicate loop; valid exactly when there are no errors |
| ValidateData.ValidateRecipesFile | validate_data.py:219-230 | a non-array is rejected with one error; an empty array is invalid; valid exactly when there are no errors |
| ValidateData.ValidateRecipeMatchesFile | validate_data.py:254-271 | a non-dict, a missing `recipes` or a non-list `recipes` is rejected with one error; otherwise valid exactly when there are no errors |
| ValidateData.MatchProblemsOf | validate_data.py:124-141 | a match with the keys `analyze_recipe` writes and consistent values has no problems |
| ValidateData.AnalysisJsonValid | match_recipes.py:155-169 | every consistent analysis, written as `analyze_recipe` writes it, passes `validate_recipe_match` |
| ValidateData.ReportPassesValidation | match_recipes.py:186-199 | the report the matcher writes passes `validate_recipe_matches_file` |
| ScrapeDeals.CollectTexts | scrape_deals.py:120-133 | the specification of `collect_texts`; its properties are the CollectTextsMember and CollectTextsInAppend rows |
| ScrapeDeals.CollectTextsMember | scrape_deals.py:120-133 | `collect_texts` finds exactly the string `text` values of the dicts in the tree |
| ScrapeDeals.CollectTextsInAppend | scrape_deals.py:129-131 | a list contributes its items' texts in order |
| ScrapeDeals.FindOffers | scrape_deals.py:91-117 | past depth 30 nothing is found; an offer dict yields its collected texts when there are some, and is not descended into |
| ScrapeDeals.FindOffersIn | scrape_deals.py:113-115 | a list's offer groups are those of its items, in order |
| ScrapeDeals.FindOffersSound | scrape_deals.py:98-104 | every offer group found is the collected texts of an offer dict inside the tree |
| ScrapeDeals.WithinChild | scrape_deals.py:106-115 | what sits inside a child of a node sits inside the node |
| ScrapeDeals.FindOffersInAppend | scrape_deals.py:113-115 | searching two lists one after the other concatenates their offer groups |
| ScrapeDeals.RootViewSearchedTwice | scrape_deals.py:106-111 | a dict that holds only a `root_view` container yields that container's offers twice |
| ScrapeDeals.OrdSearchSpec | scrape_deals.py:164-166 | a found ordinary price is a non-empty run of `[\d:,.-]` characters inside the text |
| ScrapeDeals.JfrSearchSpec | scrape_deals.py:167-169 | a found comparison price is a non-empty run of `[\d:,.-]` characters inside the text |
| ScrapeDeals.Classify | scrape_deals.py:155-177 | each text takes the first loop branch whose condition it meets, and that branch alone updates its accumulator |
| ScrapeDeals.ParseOffer | scrape_deals.py:136-187 | the specification of `parse_offer_texts`; its properties are the ParseOffer* and DescriptionParts rows |
| ScrapeDeals.ParseOfferTexts | scrape_deals.py:136-187 | the early exits, then the loop, return the offer the specification function describes |
| ScrapeDeals.ScanOfferTexts | scrape_deals.py:155-177 | the loop over `texts[1:]` leaves price, unit, the description parts and the two comparison prices as the specification functions give them |
| ScrapeDeals.ParseOfferNone | scrape_deals.py:138-147 | the result is None exactly for no texts, or a chosen name that is missing or shorter than two characters |
| ScrapeDeals.ParseOfferPageCount | scrape_deals.py:141-144 | a leading 'N/M' text is skipped for the name |
| ScrapeDeals.ParseOfferStoreName | scrape_deals.py:179-181 | every parsed offer is for the given store and has a stripped name |
| ScrapeDeals.ParseOfferPrice | scrape_deals.py:156-157 | the price is the last text after the first that matches digits and ':-', and None when there is none |
| ScrapeDeals.ParseOfferUnit | scrape_deals.py:158-161 | the unit is the last text after the first that is a listed unit or 'N för', and None when there is none |
| ScrapeDeals.DescriptionParts | scrape_deals.py:162-177 | the description parts are the texts after the first that hold '|', 'Ord.pris' or 'Jfr pris', in order |
| ScrapeDeals.ParseOfferDescription | scrape_deals.py:184 | the description is None without description texts, else their ' \| '-join |
| ScrapeDeals.ParseOfferOrdPris | scrape_deals.py:164-174 | `ord_pris` comes from the last description text whose pattern matches, and is None when none does |
| ScrapeDeals.ParseOfferJfrPris | scrape_deals.py:167-177 | `jfr_pris` comes from the last description text whose pattern matches, and is None when none does |
| ScrapeDeals.ShortNameAfterStrip | scrape_deals.py:146-181 | the length check sees the unstripped text: a space and one character pass it, and the name becomes that one character |
| ScrapeDeals.ParsePagedPublication | scrape_deals.py:190-213 | the hotspot loop returns the products the specification function describes, with the prices formatted by `f"{price}:-"` |
| ScrapeDeals.PagedProducts | scrape_deals.py:190-213 | the specification of `parse_paged_publication`; its properties are the HotspotSpec, HotspotsAtMostOne, HotspotsMember and PagedProductsSpec rows |
| ScrapeDeals.Hotspot | scrape_deals.py:196-211 | the specification of one pass of the hotspot loop; its property is the HotspotSpec row |
| ScrapeDeals.HotspotSpec | scrape_deals.py:196-211 | a hotspot yields one product exactly when its offer and heading are truthy; the name is the stripped heading, the price is `str(price) + ':-'` and the description `'Ord.pris ' + str(pre_price) + ':-'` when those are truthy and None otherwise, and the unit is the quantity's unit symbol when truthy |
| ScrapeDeals.HotspotsAtMostOne | scrape_deals.py:196-211 | there is at most one product per hotspot |
| ScrapeDeals.HotspotsMember | scrape_deals.py:196-211 | each product is the one product of an emitting hotspot |
| ScrapeDeals.PagedProductsSpec | scrape_deals.py:190-213 | a value that is not a dict yields nothing; otherwise there is at most one product per hotspot, each for the given store |
| ScrapeDeals.DedupProducts | scrape_deals.py:302-308 | the dedup loop keeps the first product per (store, name) |
| ScrapeDeals.DedupSpec | scrape_deals.py:302-308 | the output has distinct keys, is a subsequence of the input, and keeps every input key |
| ScrapeHellofresh.UnitsSpaceFree | scrape_hellofresh.py:58 | the unit alternation, in the listed order, has no unit containing whitespace |
| ScrapeHellofresh.ParseIngredient | scrape_hellofresh.py:54-68 | the result is lower-case and has no whitespace at either end |
| ScrapeHellofresh.StegStepRedundant | scrape_hellofresh.py:64-66 | the '(steg N)' substitution never changes what the note removal leaves |
| ScrapeHellofresh.ParseIngredientNoGroup | scrape_hellofresh.py:64-68 | no parenthesised group survives |
| ScrapeHellofresh.ParseIngredientPlain | scrape_hellofresh.py:57-68 | an input that starts with no quantity character or whitespace and holds no '(' is only lower-cased and stripped |
| ScrapeHellofresh.ParseIngredientQuantity | scrape_hellofresh.py:57-60 | a leading quantity, optional whitespace, a listed unit in any case and whitespace are removed once: '150 g Kycklingfilé' gives 'kycklingfilé' |
| ScrapeHellofresh.NoQuantity | scrape_hellofresh.py:57-60 | a bare number before a word that is no listed unit followed by whitespace is no quantity |
| ScrapeHellofresh.ParseIngredientNumber | scrape_hellofresh.py:62 | otherwise a bare leading number and its whitespace are removed: '2 gul lök' gives 'gul lök' |
| ScrapeHellofresh.SimplifiedIngredients | scrape_hellofresh.py:120 | one simplified entry per ingredient, in order |
| ScrapeHellofresh.CollapseSingleSpaced | scrape_hellofresh.py:100 | collapsing the whitespace runs leaves the text single-spaced |
| ScrapeHellofresh.CleanText | scrape_hellofresh.py:99-100 | the specification of the two text substitutions and the strip; its properties are the CleanTextSpec, TagsIdentity and TagReplaced rows |
| ScrapeHellofresh.CleanTextSpec | scrape_hellofresh.py:99-100 | a cleaned text is trimmed and single-spaced |
| ScrapeHellofresh.TagsIdentity | scrape_hellofresh.py:99 | text without '<' has no tags to replace |
| ScrapeHellofresh.TagReplaced | scrape_hellofresh.py:99 | the first tag, after text without '<', is replaced by one space |
| ScrapeHellofresh.CleanSteps | scrape_hellofresh.py:94-104 | the specification of the instruction loop; its properties are the CleanStepsSpec and StringStepsVerbatim rows |
| ScrapeHellofresh.CleanInstructions | scrape_hellofresh.py:94-104 | the step loop returns the instructions the specification function describes |
| ScrapeHellofresh.CleanStepsSpec | scrape_hellofresh.py:94-104 | at most one instruction per step, each a `{'text': t}`: a dict step gives its cleaned non-empty text, a string step is kept verbatim, in order |
| ScrapeHellofresh.StringStepsVerbatim | scrape_hellofresh.py:103-104 | a list of string steps comes back as their text dicts, in order |
| ScrapeRecipes.UnitsSpaceFree | scrape_recipes.py:142 | the unit alternation, in the listed order, has no unit containing whitespace |
| ScrapeRecipes.SimplifyIngredient | scrape_recipes.py:139-147 | the result is lower-case and has no whitespace at either end |
| ScrapeRecipes.NotesFirst | scrape_recipes.py:141 | the notes go first: removing them beforehand changes nothing |
| ScrapeRecipes.LeadingNoteIgnored | scrape_recipes.py:141-142 | a leading note is dropped before the quantity is recognised |
| ScrapeRecipes.Pipeline | scrape_recipes.py:141-147 | the five substitutions, then strip and lower, step by step |
| ScrapeRecipes.SimplifyQuantity | scrape_recipes.py:142 | a leading amount, a listed unit in any case and whitespace are removed once |
| ScrapeRecipes.NoQuantity | scrape_recipes.py:142 | a bare leading number before a word that is no listed unit is no quantity |
| ScrapeRecipes.SimplifyBareNumber | scrape_recipes.py:143 | otherwise a bare leading number and whitespace are removed: '3 Ägg' gives 'ägg' |
| ScrapeRecipes.PerPieceRemoved | scrape_recipes.py:144 | a per-piece size 'à N word' after a name is cut out of the text |
| ScrapeRecipes.WeightRemoved | scrape_recipes.py:145 | a trailing weight '<digits> g\|ml\|dl' after a name without digits or '(' is removed |
| ScrapeRecipes.SimplifyTrailingWeight | scrape_recipes.py:145 | a name followed by a trailing weight simplifies to the name: 'riven ost 150 g' gives 'riven ost' |
| ScrapeRecipes.SimplifyQuantityPerPiece | scrape_recipes.py:142-144 | a quantity with its unit, a name and a per-piece size simplify to the name: '1 burk krossade tomater à 400 g' gives 'krossade tomater' |
| ScrapeRecipes.SimplifiedIngredients | scrape_recipes.py:184-186 | one simplified entry per ingredient, in order |
| ScrapeRecipes.NormalizeDict | scrape_recipes.py:130-133 | the key loop keeps exactly the truthy name, text, image and url fields, in that order |
| ScrapeRecipes.NormalizedInstructions | scrape_recipes.py:123-136 | the specification of `normalize_instructions`; its properties are the NormalizedAppend, NormalizedLength, StringStepsWrapped, DictStepDropped, DictStepKept and NormalizedFrom rows |
| ScrapeRecipes.NormalizeInstructions | scrape_recipes.py:123-136 | the step loop returns the instructions the specification function describes |
| ScrapeRecipes.NormalizedAppend | scrape_recipes.py:126-135 | order is kept: normalising a concatenation concatenates the normalised parts |
| ScrapeRecipes.NormalizedLength | scrape_recipes.py:126-135 | every step gives at most one instruction |
| ScrapeRecipes.StringStepsWrapped | scrape_recipes.py:127-128 | a list of strings becomes the list of their text dicts, one for one |
| ScrapeRecipes.DictStepDropped | scrape_recipes.py:134-135 | a dict step is dropped exactly when none of its four fields is truthy |
| ScrapeRecipes.DictStepKept | scrape_recipes.py:129-135 | a kept dict step holds exactly its truthy name, text, image and url fields, with their values |
| ScrapeRecipes.NormalizedFrom | scrape_recipes.py:126-135 | every instruction comes from some step and is a dict |
| Patterns.SubAllIdentity | scrape_hellofresh.py:64 | where the pattern matches nowhere, `re.sub` changes nothing |
| Patterns.SubAllSkip | scrape_hellofresh.py:64 | a prefix in which no match starts is copied as it is |
| Patterns.SubAllHit | scrape_hellofresh.py:64 | a match at the start is replaced and the scan resumes after it |
| Patterns.SubAllRemoved | scrape_recipes.py:144 | a match right after an unmatched prefix is replaced, and the scan goes on after it |
| Patterns.SubAllChars | scrape_hellofresh.py:99 | the output holds only characters of the input and of the replacement |
| Patterns.IndexFrom | scrape_recipes.py:141 | the first index at or after a position holding a character |
| Patterns.NoGroupLowerStrip | scrape_recipes.py:147 | lower-casing and stripping keep a text free of parenthesised groups |
| Patterns.RemoveGroupsNoGroup | scrape_recipes.py:141 | removing the groups leaves no '(' with a ')' after it |
| Patterns.NoGroupIdle | scrape_hellofresh.py:66 | a text without groups has nothing for a group rule to remove |
| Patterns.RemoveGroupsIdempotent | scrape_recipes.py:141 | removing the groups twice is the same as removing them once |
| Patterns.RemoveGroupsIdentity | scrape_recipes.py:141 | without '(' there is nothing to remove |
| Patterns.NumberRunIdle | scrape_hellofresh.py:62 | a text that does not start with a run character leaves the number rule idle |
| Patterns.NumberRunRemoved | scrape_hellofresh.py:62 | a run ended by whitespace, before a text that does not continue it, is removed |
| Patterns.UnitUnique | scrape_hellofresh.py:58 | whichever unit the alternation settles on, the match ends the same way |
| Patterns.UnitEndFinds | scrape_hellofresh.py:58 | a listed unit followed by whitespace is what the alternation matches |
| Patterns.UnitEndFails | scrape_hellofresh.py:58 | with no listed unit followed by whitespace, the alternation fails |
| Patterns.QuantityFails | scrape_hellofresh.py:57-60 | without a listed unit and whitespace after the run, there is no quantity |
| Patterns.QuantityRemoved | scrape_hellofresh.py:57-60 | a quantity, optional whitespace, a unit in any case and whitespace are removed together, leaving what follows |
| ScrapeTasteline.Trunc | scrape_tasteline.py:133 | `int(f)` truncates toward zero: for f ≥ 0 the result n has n ≤ f < n + 1, for f < 0 it has n − 1 < f ≤ n |
| ScrapeTasteline.TableGet | scrape_tasteline.py:97-98 | `table.get(key, default)` raises exactly for an unhashable key, else gives the entry under the key's Python identity or the default |
| ScrapeTasteline.Items | scrape_tasteline.py:84-89 | the loop runs over the values of a dict, the items of a list, and nothing otherwise |
| ScrapeTasteline.ParseIngredient | scrape_tasteline.py:91-109 | the specification of one pass of the ingredient loop; its properties are the IngredientText, IngredientNameSource and MissingUnitOmitted rows |
| ScrapeTasteline.ParseItem | scrape_tasteline.py:91-109 | one pass of the ingredient loop gives the ingredient the specification function describes |
| ScrapeTasteline.ParseIngredients | scrape_tasteline.py:79-109 | the ingredient loop fills both lists as the specification function describes |
| ScrapeTasteline.IngredientsOneToOne | scrape_tasteline.py:91-109 | both lists have one entry per item, in item order, and the loop raises exactly when an item does |
| ScrapeTasteline.JoinParts | scrape_tasteline.py:101-108 | the ' '-join of the parts is each truthy part followed by a space, then the name |
| ScrapeTasteline.IngredientText | scrape_tasteline.py:100-109 | a dict item with a string name (and a string unit when truthy) yields the full text 'quantity unit name' with falsy parts left out, and the lower-cased name |
| ScrapeTasteline.IngredientNameSource | scrape_tasteline.py:95-97 | the name is the lookup entry for ingredientId, else a truthy comment, else 'unknown' |
| ScrapeTasteline.MissingUnitOmitted | scrape_tasteline.py:98-105 | a missing unit id, or one the table lacks, leaves the unit out of the text |
| ScrapeTasteline.Instructions | scrape_tasteline.py:112-126 | the specification of the step loop; its properties are the StepsSorted, InstructionTexts and InstructionShape rows |
| ScrapeTasteline.ParseInstructions | scrape_tasteline.py:112-126 | the step loop returns the instructions the specification function describes |
| ScrapeTasteline.StepsSorted | scrape_tasteline.py:122 | the sort raises exactly when the keys are not comparable; otherwise it is a permutation, ascending by `order`, stable among equal keys |
| ScrapeTasteline.InstructionTexts | scrape_tasteline.py:122-126 | `{'text': t}` is an instruction exactly when some dict step has content (else description) t, and t is truthy |
| ScrapeTasteline.InstructionShape | scrape_tasteline.py:126 | every instruction is a one-entry dict `{'text': t}` with a truthy t |
| ScrapeTasteline.DurationMinutes | scrape_tasteline.py:129-136 | the time is present exactly for a truthy, convertible duration, and is 'PT<m>M' with m the whole minutes |
| ScrapeTasteline.RatingSpec | scrape_tasteline.py:67-76 | a falsy rating dict or a null rating gives None; a present rating is the float value; a failed conversion gives None |
| ScrapeTasteline.Parse | scrape_tasteline.py:59-153 | the specification of `parse_recipe`; its properties are the NoDataNoRecipe, ParsedIngredients, RatingSpec and DurationMinutes rows |
| ScrapeTasteline.ParseRecipe | scrape_tasteline.py:59-153 | `parse_recipe`, step by step, returns the record the specification function describes |
| ScrapeTasteline.ParseRecipeData | scrape_tasteline.py:67-153 | the part after the data check builds the record the specification function describes |
| ScrapeTasteline.NoDataNoRecipe | scrape_tasteline.py:61-65 | a dict record gives None exactly when its recipe data is missing or falsy |
| ScrapeTasteline.ParsedIngredients | scrape_tasteline.py:91-148 | a parsed recipe has one full and one simplified ingredient per item |
| ScrapeTasteline.Select | scrape_tasteline.py:173-194 | the specification of the filter loop and sort of `main`; its properties are the PassedExactly, CountsAddUp and SelectSpec rows |
| ScrapeTasteline.SelectRecipes | scrape_tasteline.py:173-194 | the parse-and-filter loop and the sort give the selection the specification function describes |
| ScrapeTasteline.FilterStep | scrape_tasteline.py:176-187 | one pass of the filter loop adds to the kept list or to exactly one counter |
| ScrapeTasteline.PassedExactly | scrape_tasteline.py:176-187 | a recipe is kept exactly when it was parsed and its rating is present and at least 4.0 |
| ScrapeTasteline.CountsAddUp | scrape_tasteline.py:173-187 | every record is counted once: kept, skipped without rating, skipped for a low rating, or without data |
| ScrapeTasteline.SelectSpec | scrape_tasteline.py:173-194 | the run raises exactly when a parse raises; the kept recipes are exactly the parsed ones rated at least 4.0, each as often as parsed, sorted by (rating, reviews) descending; the counts add up to the number of records |
| OptimizeData.AddStoresSpec | optimize_data.py:41-43 | adding the stores of a list of entries keeps the elements distinct and adds exactly the truthy stores they name |
| OptimizeData.StoresSpec | optimize_data.py:39-43 | the collected stores are distinct and are exactly the truthy stores some matched ingredient names |
| OptimizeData.StoreIndexSpec | optimize_data.py:45-46 | the sorted stores are strictly ascending and hold exactly the collected stores, and `store_to_id` is their inverse: `stores[store_to_id[s]] == s` |
| OptimizeData.OptIngredient | optimize_data.py:75-98 | the compact ingredient exists exactly when the ingredient is a dict with `deal_store`, `ingredient` and `deal_name`, a hashable store and a numeric truthy score |
| OptimizeData.OptRecipe | optimize_data.py:53-106 | the compact recipe exists exactly when the recipe is a dict with name, url and the three statistics, and its matched part does not raise |
| OptimizeData.OptimizeMatched | optimize_data.py:74-100 | the inner loop builds the compact form of each matched ingredient, in order |
| OptimizeData.OptimizeRecipe | optimize_data.py:53-106 | the body of the second loop builds the compact recipe |
| OptimizeData.Optimize | optimize_data.py:39-115 | the specification of `optimize_recipe_matches` between load and dump; its properties are the OptimizeMetadata, OptimizeStores, OptimizeRecipes and StoreIdResolves rows |
| OptimizeData.OptimizeRecipeMatches | optimize_data.py:39-115 | the store loop, the index and the recipe loop build the optimised data the specification function describes |
| OptimizeData.OptIngredientShape | optimize_data.py:79-93 | the compact ingredient is the three fixed entries followed by the optional ones |
| OptimizeData.OptIngredientKept | optimize_data.py:77-83 | a compact ingredient keeps the ingredient and the deal name, and its store_id is the store's position in the index |
| OptimizeData.LookupRenamed | optimize_data.py:86-93 | fields copied under distinct new names answer a name exactly when the field is truthy |
| OptimizeData.OptIngredientOptional | optimize_data.py:86-93 | price, ord_pris, jfr_pris and unit are present exactly when the original field is truthy, with its value |
| OptimizeData.RecipeEntriesOptional | optimize_data.py:63-65 | a key that is none of the fixed ones is answered by the optional entries alone |
| OptimizeData.RecipeEntriesFixed | optimize_data.py:53-70 | a fixed key is answered past the optional entries, which never carry it |
| OptimizeData.MatchedPartSpec | optimize_data.py:73-100 | the matched part has one compact entry per original entry, and is present exactly when the original list is truthy |
| OptimizeData.OptRecipeKept | optimize_data.py:53-70 | the name, the url and the three match statistics are copied unchanged |
| OptimizeData.OptRecipeOptional | optimize_data.py:58-65 | each optional recipe field is present exactly when it is truthy in the original |
| OptimizeData.OptRecipeUnmatched | optimize_data.py:103-104 | `unmatched_ingredients` is kept exactly when it is truthy |
| OptimizeData.OptRecipeMatched | optimize_data.py:73-100 | `matched_ingredients` is present exactly when the original list is truthy, and then has one entry per original entry |
| OptimizeData.NamedStoreIndexed | optimize_data.py:39-46 | a store some matched ingredient names has a position in the index, which lists it there |
| OptimizeData.EmptyNotIndexed | optimize_data.py:42 | falsy stores are never added, so the empty name has no position |
| OptimizeData.IdsSpec | optimize_data.py:45-46 | the sorted stores are strictly ascending and are exactly the stores some matched ingredient names |
| OptimizeData.OptimizeMetadata | optimize_data.py:110-112 | last_updated, total_deals and total_recipes are copied with `data.get`, so an absent one becomes null |
| OptimizeData.OptimizeStores | optimize_data.py:113 | the `stores` list is strictly ascending and holds exactly the stores some matched ingredient names |
| OptimizeData.OptimizeRecipes | optimize_data.py:51-114 | one compact recipe per original recipe, in the original order |
| OptimizeData.StoreIdResolves | optimize_data.py:77 | every non-empty string store the second loop looks up has an index whose entry in `stores` is that store |
| Monitor.BumpSum | monitor.py:46 | one more counted: the counts sum to one more |
| Monitor.BumpCount | monitor.py:46 | only the bumped key's count changes, and by one |
| Monitor.BumpKeys | monitor.py:46 | the keys after counting are those before plus the counted key |
| Monitor.BumpDistinct | monitor.py:46 | counting keeps every key in a single entry |
| Monitor.TallySpec | monitor.py:43-46 | counting raises exactly when some key is unhashable; otherwise the counts sum to the number of keys, each key has one entry, and its count is its number of occurrences |
| Monitor.FieldValues | monitor.py:45 | one `r.get(field, default)` per record, in order |
| Monitor.CountBy | monitor.py:43-46 | the counting loop gives the tally of the field values |
| Monitor.CountTruthy | monitor.py:49 | the number of records with a truthy field is at most the number of records |
| Monitor.TruthyValuesSpec | monitor.py:88 | the collected values are all truthy, and there are as many as are counted |
| Monitor.Percentage | monitor.py:62 | the percentage of no records is 0 |
| Monitor.PercentageBounds | monitor.py:62-64 | a count of at most total lies between 0 and 100 percent, and is the share `count / total * 100` |
| Monitor.SumNumbersOk | monitor.py:89 | `sum` succeeds exactly when every value is a number |
| Monitor.SumNumbersBounds | monitor.py:89 | values between lo and hi sum to between n*lo and n*hi |
| Monitor.DivideBounds | monitor.py:89 | dividing by a positive count keeps a bound and is undone by multiplying |
| Monitor.MeanBounds | monitor.py:88-89 | the mean is 0 for no values; otherwise it lies between the bounds of the values and times their number is their sum |
| Monitor.DealAnalysis | monitor.py:33-66 | the specification of `analyze_deals`; its properties are the DealStatsSpec and MissingStoreIsUnknown rows |
| Monitor.AnalyzeDeals | monitor.py:33-66 | the loop and the sums give the deal statistics the specification function describes |
| Monitor.DealStatsSpec | monitor.py:43-66 | the per-store counts add up to total, each store counted as often as it occurs (a missing one as 'Unknown'); the image and price counts are at most total, with percentages in [0, 100] and 0 for no deals; the comparison count is #jfr_pris + #ord_pris ≤ 2·total |
| Monitor.MissingStoreIsUnknown | monitor.py:45 | a deal without a store is counted under 'Unknown' |
| Monitor.OccurrencesAt | monitor.py:46 | a key at some position is counted at least once |
| Monitor.RecipeAnalysis | monitor.py:69-106 | the specification of `analyze_recipes`; its properties are the RecipeStatsSpec, AverageRating and TextRatingRaises rows |
| Monitor.AnalyzeRecipes | monitor.py:69-106 | the loop and the sums give the recipe statistics the specification function describes |
| Monitor.RecipeStatsSpec | monitor.py:79-106 | an unhashable source makes the run raise; otherwise the per-source counts add up to total, each source counted as often as it occurs (a missing one as 'unknown'); the rating, image and nutrition counts are at most total, and the image and nutrition percentages lie in [0, 100] |
| Monitor.AverageRating | monitor.py:85-89 | with_ratings is the number of truthy ratings; the average is 0 without them, else their mean, and lies between their bounds |
| Monitor.TextRatingRaises | monitor.py:89 | a truthy rating that is not a number makes `sum` raise |
| Monitor.BucketOf | monitor.py:131-140 | the bucket is one of the five ranges |
| Monitor.BucketBounds | monitor.py:131-140 | each range takes exactly the percentages between its inclusive upper bounds 20, 40, 60, 80, and above 80 |
| Monitor.Increment | monitor.py:132-140 | counting into a range raises the total by one and changes only that range |
| Monitor.Distribute | monitor.py:129-140 | the bucketing loop gives the distribution the specification function describes |
| Monitor.DistributionRaises | monitor.py:129-131 | the loop raises exactly when a recipe is not a dict or its percentage is not a number |
| Monitor.DistributionSnoc | monitor.py:129-140 | one pass more of the loop adds the recipe to its range |
| Monitor.DistributionTotal | monitor.py:121-140 | the five counts add up to the number of recipes |
| Monitor.DistributionCount | monitor.py:129-140 | each range counts exactly the recipes whose percentage falls in it |
| Monitor.WithMatchesBound | monitor.py:147 | with_matches is at most the number of recipes |
| Monitor.Percentages | monitor.py:143 | one `r.get('match_percentage', 0)` per recipe, in order |
| Monitor.MatchAnalysis | monitor.py:109-166 | the specification of `analyze_matches`; its properties are the MatchStatsSpec, DistributionTotal and DistributionCount rows |
| Monitor.AnalyzeMatches | monitor.py:109-166 | the loop and the sums give the match statistics the specification function describes |
| Monitor.BucketedAreDicts | monitor.py:129-130 | once the buckets are filled, every recipe is a dict |
| Monitor.MatchStatsSpec | monitor.py:118-166 | the bucket counts add up to total_recipes; with_matches ≤ total_recipes; the average is 0 for no recipes; total_deals is `data.get('total_deals', 0)` |
| Logger.ErrorTracker.constructor | logger.py:114-118 | a new tracker has no errors, warnings or failed stores, and keeps its invariant |
| Logger.ErrorTracker.AddError | logger.py:120-133 | one record is appended to errors and the store to failed_stores; warnings are unchanged; len(failed_stores) == len(errors) is kept |
| Logger.ErrorTracker.AddWarning | logger.py:135-145 | one record is appended to warnings; errors and failed_stores are unchanged |
| Logger.ErrorTracker.HasErrors | logger.py:147-149 | true exactly when errors is non-empty |
| Logger.ErrorTracker.HasWarnings | logger.py:151-153 | true exactly when warnings is non-empty |
| Logger.ErrorTracker.GetFailedStores | logger.py:155-157 | each recorded store once, and nothing else |
| Logger.ErrorTracker.GetStats | logger.py:177-187 | the counts of errors and warnings; the failed-stores count is at most the errors count, and 0 exactly when there are no errors |
| Sorting.SortDescPermutes | match_recipes.py:127 | `list.sort` only reorders: the result is a permutation of the input |
| Sorting.SortDescStable | match_recipes.py:127 | the sort is stable: elements with equal keys keep their order |
| Sorting.SortDescFilter | match_recipes.py:127 | filtering after sorting is sorting after filtering |
| Sorting.SortDescHead | match_recipes.py:142 | the head of the sorted list is the first element with the largest key |
| Sorting.SortAscAscending | optimize_data.py:45-46 | `sorted()` of distinct strings is strictly ascending with the same elements |
| Sorting.AscendingUnique | optimize_data.py:45-46 | two strictly ascending lists with the same elements are equal, so the order the set is read in does not matter |
| Sorting.IndexMapInverse | optimize_data.py:45 | on a list without repetitions, `{x: i for i, x in enumerate(r)}` and the list are inverse |
| Seqs.RepeatPositionsSpec | validate_data.py:188-193 | a position is a repeat exactly when its key occurs at an earlier position |
| Seqs.FirstPerKeyCount | validate_data.py:188-193 | first occurrences and repeats split the positions |
| Seqs.FirstPerKeyKeySet | scrape_deals.py:302-308 | keeping the first element per key keeps every key |
| Seqs.FirstPerKeyDistinct | scrape_deals.py:302-308 | the kept elements have distinct keys |
| Seqs.FirstPerKeySubsequence | scrape_deals.py:302-308 | keeping the first element per key only deletes elements |
| Seqs.LatestSpec | scrape_deals.py:155-161 | 'last one wins': the result is None exactly when no element yields a value, else the last one's |
| Seqs.FirstFromSpec | scrape_deals.py:164 | `re.search`: nothing is found exactly when no position yields, else the leftmost one's |
| Text.WordsOfWord | match_recipes.py:91-92 | a non-empty text without whitespace splits into itself alone |
| Text.StripLowerNormal | scrape_hellofresh.py:68 | `s.strip().lower()` is lower-case and has no whitespace at either end |
| Json.MapCheckedRaised | scrape_tasteline.py:91-109 | a loop that builds one value per element raises exactly when some element raises |
| Json.MapCheckedOk | scrape_tasteline.py:91-109 | without an exception, such a loop gives one value per element, in order |
| Json.MapCheckedAll | scrape_tasteline.py:176-187 | a loop whose every element gives its value without raising returns those values, in order |
| Json.FirstDifference | validate_data.py:139 | the first position where two lists differ under Python's `==`: every earlier pair is equal, and the pair there is not |
| Json.GreaterListsPrefix | validate_data.py:139 | a list compares greater than another that agrees with it up to the shorter length exactly when it is longer |
| Json.GreaterListsAt | validate_data.py:139 | otherwise two lists compare as their first differing items do |

## Left out

**I/O and outside code:**

- Browser automation, HTTP calls and page handling. This covers `scrape_ereklamblad`, `extract_products_from_api`, `scrape_dom_fallback`, `collect_recipe_urls`, the page and retry loop of `extract_recipe_data`, `get_bearer_token`, `get_all_recipe_cards`, `get_recipe_details`, `fetch_all_pages`, `build_lookups` and every Playwright loop of a `main`. All of this is I/O on live pages and APIs. The models start from the data these return.
- File reads and writes, `json.load`/`json.dump` and the file-not-found and JSON-decode branches of the validators. The model starts from parsed JSON.
- `difflib.SequenceMatcher(...).ratio()` is library code. It is a parameter of subset type: any function into [0, 1].
- `str()`, `int()` and `float()` on strings and on structured values in `scrape_tasteline.py` are Python builtins whose text formats are not modelled. They are a `Conversions` parameter. `int` on bools, ints and floats is written out.
- Python's `==` on JSON values is `Json.PyEq`: numbers (and booleans) by value, so `1 == 1.0 == True`; lists item by item, so `[1] == [1.0]`; dicts by their keys and the values under them, whatever the key order; strings and null by identity. The `v not in [...]` test of `find_incito_offers` uses it. Dictionary keys (the counting dicts of `monitor.py`, the lookup tables of `scrape_tasteline.py`) are hashed, and there booleans and numbers are identified as Python identifies them.
- For floats, NaN and infinity are not modelled. This includes the `OverflowError` of `int(inf)`.

**Rounding, time and output:**

- `round()` in `match_recipes.py:162`, `optimize_data.py:96` and `monitor.py:101,161`. The model keeps full precision.
- Anything involving the clock:
  - the `utcnow` timestamp of the report, which is a parameter;
  - `data_age` and the parsing of `last_updated` in `monitor.py:150-156`;
  - `format_size`.
- Console printing throughout, `ScraperLogger`, `create_logger` and `print_summary` in `logger.py`. They are thin wrappers over the `logging` library.
- Error and warning message texts. Validators report a `Problem` datatype naming the check and the position, in the order the messages would appear.

**Other files and the HelloFresh record:**

- `config.py` is not part of this model: it holds constants not imported by the matcher.
- `update_nutrition.py` is not part of this model: it is network code.
- `scrape_hellofresh.py`: only the instruction loop and the ingredient list of `extract_recipe_data` are modelled. The rest of the JSON-LD record (rating, reviews, nutrition, `str(recipeYield)`) is not.

**Strings:**

- Lower-casing, whitespace and word characters cover ASCII plus å ä ö é à and the fraction glyphs. Other Unicode case mappings are not modelled.
- `\d` is the ASCII digits 0-9 (`Text.IsDigit`). Python's `re` also accepts the other Unicode decimal digits, such as Arabic-Indic or full-width digits, and such texts are not modelled.

**Order and Python behaviours the model simplifies:**

- Logger.ErrorTracker.GetFailedStores: a Python set has no defined order. The model lists the stores in the order they first failed, and states only membership, distinctness and the count.
- Monitor.CountBy: the counting dict is an association list in first-occurrence order. Keys equal under Python's `==` share the first spelling, as in Python.
- Monitor.MissingStoreIsUnknown: states only that 'Unknown' is counted. Its exact count is in `Monitor.DealStatsSpec`.
- ScrapeTasteline.StepsSorted: Python can sort steps whose `order` keys are all strings. The model raises unless all keys are numbers, or there are fewer than two steps.
- OptimizeData.StoresSpec: a truthy store that is not a string raises in the model. Python sorts a set of only numeric stores, but the store index is a map from strings.
- RecipeMatching.AnalyzeRecipe: a `simplified_ingredients` list must hold strings, as every scraper writes it. A list item that is not a string makes `normalize` raise once a deal is scored against it, but passes through unchanged when there are no deals; that case is not modelled.
- `find_matching_deals` and `analyze_recipe` are modelled for any scoring function. The lemmas about ignore words instantiate that function with `match_score`.
