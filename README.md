# Product recommender: a verified model

This project models the product recommender component of a small React application
(`src/components/RecommendationSystem.tsx`). The component keeps four pieces of session
state:

- a fixed product catalog;
- the user's preference list (category and weight pairs);
- the list of liked product ids;
- the current recommendation list.

Its three operations are modelled:

- **generateRecommendations** rebuilds the list. It folds the preference list into a
  category → affinity dictionary and adds 0.2 per liked product to that product's
  category. It then drops the liked products and scores each remaining one as
  `affinity × rating + random·0.5`. Finally it sorts by score, highest first, and keeps
  the first four.
- **handleLikeProduct** appends an id to the liked list. When a catalog product has that
  id, it also raises every preference entry of the product's category to
  `min(weight + 0.1, 1)`.
- **handlePreferenceChange** sets every preference entry of one category to the given
  weight.

Module layout:

- `Catalog.dfy` holds the `Product` and `UserPreference` records, `find` and the initial
  state.
- `Preferences.dfy` holds the preference list: the weight the recommender reads for a
  category, and the two rewrites (like and slider edit).
- `Ranking.dfy` holds the recommendation pipeline. The affinity dictionary is built by a
  method with loops (the source mutates a dictionary), checked against a recursive
  specification. Filter, score, sort and truncate are a pure function, as in the source's
  `filter`/`map`/`sort`/`slice` chain.
- `Session.dfy` holds the component as a class `RecommendationSystem` with the catalog as
  a constant field and the other three pieces of state as mutable fields. It also holds
  lemmas about what a like does to the affinities, and a scenario on the initial state.

Modelling choices:

- **Noise.** `Math.random()` is called once per product that survives the filter, in
  catalog order. The model takes these draws as a parameter `noise` with exactly that
  many entries. `NoiseBand` states that every draw is in `[0, 0.5)`.
- **Arithmetic.** Weights, ratings and scores are exact `real`s.
- **Sort.** The sort is stable and descending. It is modelled as an insertion sort that
  places each product ahead of every entry that does not score higher.
- **Repeated categories.** The dictionary fold lets a later preference entry override an
  earlier one of the same category, so the weight read for a category is the last entry's
  weight. A category with no entry reads as 0 (for names that are not `Object.prototype`
  members; see "## Left out").
- **Repeated likes.** The +0.2 bonus is counted once per liked-list entry, repetitions
  included, and is not capped.

Behaviours an idealised recommender might not have, which the model keeps as the code
does:

- `handlePreferenceChange` stores its argument without clamping (`WithWeight`). Its only
  caller, a range input from 0 to 1, never passes a value outside [0, 1].
- Liking is not idempotent: the id is always appended, and a duplicate like adds a second
  +0.2 bonus (`HandleLikeProduct`, `LikeAffinityChange`). Only the UI's disabled button
  keeps a user from liking twice.
- An id that names no catalog product still grows the liked list. For the same noise
  draws it changes no recommendation (`UnknownLikeChangesNothing`). In the running
  component the rebuild that follows uses fresh random draws, so the list may still be
  reordered.
- A like or a slider edit only rewrites entries that already exist; neither adds a
  category (`Bumped`, `WithWeight`). A category without an entry reads as 0 when scoring
  (`StoredWeightIsLastEntry`).
- A weight above 1 only comes from a direct call of `handlePreferenceChange` with such a
  value, never from the component's range input; a like then lowers it to 1, because
  `min(w + 0.1, 1)` is applied as written.

## Model

| member | source | states |
|---|---|---|
| Catalog.FindIndex | src/components/RecommendationSystem.tsx:120 | the index returned is the first catalog position holding the id, or the catalog length when none does |
| Catalog.Find | src/components/RecommendationSystem.tsx:143 | `find` yields nothing exactly when no product has the id; otherwise a catalog product with that id, and with unique ids it is the one at any position holding the id |
| Catalog.InitialIds | src/components/RecommendationSystem.tsx:24-97 | the initial catalog has eight products with ids 1 to 8 in order |
| Preferences.StoredWeightIsLastEntry | src/components/RecommendationSystem.tsx:113-116 | the weight the recommender reads for a category is that of the last preference entry for it, and 0 when the category has no entry |
| Preferences.StoredWeight | src/components/RecommendationSystem.tsx:113-116 | the weight read for a category from the folded dictionary; its meaning (last entry wins, 0 when absent) is stated by `StoredWeightIsLastEntry` |
| Preferences.Bumped | src/components/RecommendationSystem.tsx:145-151 | a like keeps the list's length and categories, leaves entries of other categories unchanged, sets entries of the liked category to min(w + 0.1, 1), never lowers a weight that was at most 1 and keeps every weight in [0, 1] if all were |
| Preferences.BumpedReadBack | src/components/RecommendationSystem.tsx:145-151 | after a like the liked category reads as min(old + 0.1, 1) if it has an entry and as before otherwise; every other category reads as before |
| Preferences.WithWeight | src/components/RecommendationSystem.tsx:156-160 | a slider edit keeps length and categories, gives every entry of the category exactly w (no clamp), leaves other entries unchanged, and leaves the list identical when the category has no entry |
| Preferences.WithWeightReadBack | src/components/RecommendationSystem.tsx:156-160 | after a slider edit the category reads as w if it has an entry (0 otherwise); every other category reads as before |
| Preferences.LastEditWins | src/components/RecommendationSystem.tsx:155-161 | two slider edits of one category amount to the second one alone |
| Preferences.InitialFitnessLike | src/components/RecommendationSystem.tsx:99-103 | liking a Fitness product in the initial state moves Fitness from 0.4 to 0.5 |
| Ranking.CategoryScores | src/components/RecommendationSystem.tsx:113-124 | the affinity dictionary of the fold and the like loop; its reads are given in closed form by `CategoryScoresFormula` and it is what `BuildCategoryScores` computes |
| Ranking.LikeCountAppend | src/components/RecommendationSystem.tsx:119-124 | appending an id to the liked list raises a category's like count by one exactly when the id names a catalog product of that category |
| Ranking.CategoryScoresFormula | src/components/RecommendationSystem.tsx:113-124 | a category's affinity is its stored weight (or 0) plus 0.2 for every liked-list entry naming a product of that category |
| Ranking.BuildCategoryScores | src/components/RecommendationSystem.tsx:113-124 | the dictionary built by the fold and the like loop is the affinity dictionary specified above |
| Ranking.Unliked | src/components/RecommendationSystem.tsx:128 | the filtered catalog, never longer than the catalog; what it keeps and drops is stated by `UnlikedContents` |
| Ranking.UnlikedContents | src/components/RecommendationSystem.tsx:128 | the filter keeps every product whose id is not liked, as often as it occurs in the catalog, and drops every product whose id is liked |
| Ranking.ScoreAll | src/components/RecommendationSystem.tsx:129-132 | one scored entry per unliked product; entry by entry it is stated by `ScoreAllAt` and `ScoreAllProducts` |
| Ranking.ScoreAllAt | src/components/RecommendationSystem.tsx:129-132 | entry i of the scored list is unliked product i with score affinity × rating + noise draw i |
| Ranking.ScoreAllProducts | src/components/RecommendationSystem.tsx:129-132 | scoring keeps every product, in order |
| Ranking.Insert | src/components/RecommendationSystem.tsx:133 | inserting into a list sorted by non-increasing score gives a sorted list with one more entry and the same entries plus the new one |
| Ranking.SortByScore | src/components/RecommendationSystem.tsx:133 | the sort's result is ordered by non-increasing score and is a permutation of its input |
| Ranking.RankProducts | src/components/RecommendationSystem.tsx:127-134 | the list has exactly min(4, number of unliked products) entries, is sorted by non-increasing score, holds only catalog products whose id is not liked, and its products form a sub-multiset of the unliked products |
| Ranking.Recommend | src/components/RecommendationSystem.tsx:109-134 | the whole pipeline: min(4, unliked) entries sorted by non-increasing score, none of them liked, drawn from the unliked products; the scores are bounded by `RecommendedScores` and the kept entries are the top ones by `RecommendedAreTopScored` |
| Ranking.NoiseFreeScoreFormula | src/components/RecommendationSystem.tsx:131 | a product's score without the random term is (stored weight of its category or 0, plus 0.2 per liked product of the category) × rating |
| Ranking.ScoredAt | src/components/RecommendationSystem.tsx:131 | scored entry i is unliked product i with its noise-free score plus noise draw i |
| Ranking.ScoredFormula | src/components/RecommendationSystem.tsx:131 | every scored product's score exceeds its noise-free score by an amount in [0, 0.5) |
| Ranking.RecommendedScores | src/components/RecommendationSystem.tsx:127-134 | every recommended score exceeds the product's noise-free score by an amount in [0, 0.5) |
| Ranking.RecommendedAreTopScored | src/components/RecommendationSystem.tsx:133-134 | a scored entry cut by the truncation scores no higher than any recommended entry |
| Ranking.NoiseCannotReorder | src/components/RecommendationSystem.tsx:131-133 | when one recommended product's noise-free score beats another's by at least 0.5, it is listed first |
| Ranking.ClearlyBetterIsRecommended | src/components/RecommendationSystem.tsx:127-134 | an unliked product whose noise-free score beats a recommended product's by at least 0.5 is recommended, ahead of it |
| Ranking.RecommendedIdsUnique | src/components/RecommendationSystem.tsx:127-134 | with unique catalog ids, no id is recommended twice |
| Ranking.UnknownLikeChangesNothing | src/components/RecommendationSystem.tsx:119-128 | a liked id that names no product leaves the recommendations unchanged for the same noise |
| Ranking.FirstPlaceScenario | src/components/RecommendationSystem.tsx:127-134 | with products 1 (category X) and 2 (Y), both rated 5, and weights X = 1, Y = 0, product 1 comes first whatever the noise |
| Session.PreferencesAfterLike | src/components/RecommendationSystem.tsx:143-151 | a like keeps the preference list's length and keeps every weight in [0, 1] if all were |
| Session.LikeWeightChange | src/components/RecommendationSystem.tsx:143-151 | after a like, the liked product's category reads as min(old + 0.1, 1) when it has an entry; unknown ids and other categories read as before |
| Session.LikeAffinityChange | src/components/RecommendationSystem.tsx:139-153 | a like changes the liked product's category's affinity by the capped weight raise plus 0.2, and no other category's affinity |
| Session.LikeNeverLowersAffinity | src/components/RecommendationSystem.tsx:139-153 | with weights in [0, 1], a like lowers no affinity and raises the liked product's category by at least 0.2 |
| Session.StoredWeightInRange | src/components/RecommendationSystem.tsx:113-116 | with weights in [0, 1], the weight read for any category is in [0, 1] |
| Session.RecommendationSystem.constructor | src/components/RecommendationSystem.tsx:24-106 | the component starts with the eight-product catalog, preferences Electronics 0.3, Fitness 0.4 and Kitchen 0.3, no likes and no recommendations |
| Session.RecommendationSystem.GenerateRecommendations | src/components/RecommendationSystem.tsx:109-137 | the new list is the pipeline's result for the current state, with min(4, unliked) entries, none of them liked; preferences and likes are unchanged |
| Session.RecommendationSystem.HandleLikeProduct | src/components/RecommendationSystem.tsx:139-153 | the id is appended to the liked list unconditionally; the preferences become the list after a like of that id; the recommendations are unchanged until rebuilt |
| Session.RecommendationSystem.HandlePreferenceChange | src/components/RecommendationSystem.tsx:155-161 | the preferences become the list with that category set to the given weight; likes and recommendations are unchanged |
| Session.FindSecond | src/components/RecommendationSystem.tsx:143 | the second catalog entry is found by its id when the first entry has another id |
| Session.UnlikedSecond | src/components/RecommendationSystem.tsx:128 | liking only the second entry's id filters out exactly that entry |
| Session.YogaMatFacts | src/components/RecommendationSystem.tsx:24-97 | in the initial catalog, id 2 is the Fitness yoga mat, and liking it leaves seven products to rank |
| Session.LikeYogaMatScenario | src/components/RecommendationSystem.tsx:139-165 | on a fresh component, liking the yoga mat and rebuilding the list leaves Fitness at 0.5 and gives four recommendations, none of them the mat |

## Left out

- `Math.random()` is not modelled as a source of randomness. Its draws are a parameter, and the properties that need the draws to lie in [0, 0.5) assume so through `NoiseBand`.
- IEEE-754 rounding of `+ 0.1`, `+ 0.2` and the score arithmetic is left out; the model computes exactly.
- React's `useEffect` run once after construction and again after every change of preferences or likes is not modelled as scheduling. The caller calls `GenerateRecommendations` itself; the constructor alone leaves the list empty. `LikeYogaMatScenario` rebuilds once, after the like, and skips the rebuild after construction, whose list the like's rebuild replaces.
- JSX rendering is left out, including the catalog display limit of six products, the star rating display and the disabled state of the like button.
- `console.log` is left out: it has no effect on state.
- The recommendation entries carry the product and its score as `ScoredProduct`, rather than the product's fields spread into one object with an added `score`.
- The sentiment-analysis and image-classification components and the page layout are not part of this model. They wrap a foreign model-inference library and the browser's file reader.
- Ranking.SortByScore: stability (products of equal score keep catalog order) is built into `Insert`'s definition but not stated or proved as a property.
- Category names that are `Object.prototype` members (`toString`, `constructor`, `__proto__`, …) are read like any other name here; in the source the affinity dictionary is a plain object literal, so such a name reads an inherited value (or, for `__proto__`, ignores the assignment) and the score becomes NaN. The fixed catalog has no such category.
