# Movie recommendation core, modelled in Dafny

This project models the part of a Watcha movie-recommendation system that
prepares ratings and ranks movies. It also models the text cleaning and the
`/`-delimited record files that feed it.

- **Rating preparation.** The single-pass minimum-count filter, the sorted-id
  index mapping, the title search and the merge of the scraped ratings with the
  Firestore ratings. The merge keeps the last row per `(user_id, movie_id)`.
- **Item-based neighbours.** Pruning the cosine matrix to the top-k positive scores
  per row, and the stable neighbour query.
- **Five ranking variants.** The SVD pipeline, two `MovieRecommenderLite` classes, the
  app's `MovieRecommender` and `recommend_movies`. Candidates are the movies the
  user has not rated, ranked by score and cut to `n`. `find_similar_movies` drops
  the top entry. The hybrid blends use min/max normalisation or rescaling.
- **The SVD pipeline as a state machine.** Each stage fills fields that the next stage
  checks. The train/test overlap and the overfitting verdict are computed from those
  fields.
- **Scraping text and files.** `clean_text` and its relatives, the legacy regex helpers,
  the append-only text files of `DataStorage` with their lossless round trip, the
  two line-parsing loaders, and the URL and XPath builders.
- **Small rules.**
  - The cold-start sampler, which draws from the 200 most-rated movies.
  - The fallback chain of the Firestore recommender: SVD, then item-based, then
    popular. This includes its metadata cache, preferred genres and rating trend.
  - The byte-unit formatting of `format_file_size`.

## How the program is modelled

- Each numeric learner is an input: a prediction function `(user, movie) -> real`,
  a given similarity matrix, or a reconstructed rating matrix. This covers
  Surprise `SVD`, scipy `svds`, sklearn `cosine_similarity` and `TfidfVectorizer`.
- Scores are Dafny `real`.
- A file is an `Option<string>`, where `None` means the file is missing.
- A data frame is a sequence of row records plus its column set.
- Python exceptions become a `Result` carrying a `PyError` (`ValueError`, `KeyError`,
  `TypeError`, `IndexError`, `FileNotFoundError`, `ZeroDivisionError`,
  `AttributeError`). A `try`/`except` that falls back becomes that fallback.
- Objects whose fields change are classes with `modifies` clauses: `DataStorage`,
  `ItemBasedRecommender`, `SVDRecommenderPipeline`, both `MovieRecommenderLite`
  classes, `MovieRecommender`, the ratings frame those mutate, and
  `FirebaseRecommender`.
- Loops that build a result become methods with invariants, proved equal to a
  specifying function. That function's properties are proved as lemmas.
- pandas `sort_values` is not stable. The ranking functions stand in for it with the
  stable descending sort `Ranking.SortDesc`, which is one admissible order among equal
  scores. The lemmas about those rankings state only what holds for every order: a
  result is non-increasing and no left-out candidate scores above a kept one. A method
  whose `ensures` equates its result with such a function fixes that one order, and
  each of those methods is listed under "## Left out". Python's `sorted`/`list.sort`
  is stable and is specified exactly: score descending, then position ascending.
- `random.sample` and the tie order of `value_counts` are nondeterministic. Each is a
  free choice among the admissible results, and a lemma proves such a result exists.
- Shared modules:
  - `Wrappers`: `Option`, `Result` and `PyError`.
  - `Seqs`: filtering, subsequences, Python slices.
  - `PyText`: `str.strip`, `split`, `join`, `isspace`, `float()` and universal newlines.
  - `IdIndex`: sorted distinct ids and their dense index.
  - `Ranking`: descending sorts and top-n specifications.
  - `Catalogue`: first-row lookups and the min/max normalisation.
- The two loaders of `app/utils/data_loader.py` (12-68) have the same parsing bodies as
  those of `data_scraping/common/data_loader.py`, and `DataLoader` models both. Only the
  `@st.cache_data` decorator and the default path differ: the app defaults to
  `'../data_scraping/data/'`, and the other loader resolves `None` through
  `get_data_path`. The model takes the file contents, so neither difference changes a
  result.
  The app's own `filter_data` (`app/utils/data_loader.py:71-86`) is `AppFilterData`.
  `AppFilterMatchesIntegrator` relates it to the integrator's `filter_data`
  (`modeling/utils/data_integration.py:134-165`).
- The app's `search_movies` (`app/utils/data_loader.py:89-92`) is the same as
  `Ratings.SearchMovies`.

## Model

| member | source | states |
|---|---|---|
| Ratings.CountFilter | modeling/utils/data.py:45-61 | A row is kept iff its user's and its movie's counts, both taken from the unfiltered input, meet the thresholds. The output is an order-preserving subsequence. |
| Ratings.FilterByMinCounts | modeling/utils/data.py:37-64 | `ValueError` iff the frame is empty, lacks `user_id`/`movie_id`, or nothing survives. Otherwise the columns are unchanged and the output is a non-empty subsequence holding exactly the surviving rows. |
| Ratings.CountFilterNotFixedPoint | modeling/utils/data.py:45-61 | Filtering once is not a fixed point. A concrete frame changes again when filtered a second time, because counts are not recomputed. |
| Ratings.PreprocessIdMapping | modeling/utils/data.py:94-126 | `ValueError` iff the frame is empty or lacks the id columns. Otherwise each row keeps its data and gets the user and movie index the mapping gives its ids. |
| Ratings.MappingIsBijection | modeling/utils/data.py:106-113 | `user_to_idx` maps the sorted distinct user ids onto 0..n-1 and `idx_to_user` is its exact inverse. The same holds for movies. |
| Ratings.MappingOrderIndependent | modeling/utils/data.py:106-111 | Two rating lists with the same user and movie id sets get the same mapping, whatever the row order. |
| Ratings.FindMovieIdByTitle | modeling/utils/data.py:176-205 | `ValueError` iff `movie_title` or `movie_id` is missing. `None` iff no row matches. Otherwise matching rows with distinct ids, each the first match of its id, ordered by where the id first matches: the first `limit` such ids, all of them when fewer exist, and at least one when `limit` >= 1. |
| Ratings.DedupOrder | modeling/utils/data.py:193 | `drop_duplicates(subset=['movie_id'])` keeps the ids in the order of their first row. |
| Ratings.DedupHeadInOrder | modeling/utils/data.py:193-197 | After `head(limit)`, every id that first matches before a kept id is kept too. With fewer than `limit` rows, every matching id is kept. |
| Ratings.GetMovieIdSpec | modeling/utils/data.py:222-234 | `ValueError` iff a required column is missing. With an exact match, the id of the first exactly matching row, as `iloc[0]` gives. Without one, a single partial-match id gives that id, and none or several give `None`. |
| Ratings.FirstExactIsFirstMatch | modeling/utils/data.py:222 | The exact search with `limit=1` returns one row, whose id is that of the first row whose title equals the query. |
| Ratings.SearchMovies | modeling/utils/data.py:237-240 | `KeyError` without a `title` column. Otherwise a subsequence of case-insensitive title matches, at most `limit` of them, and all the matches when fewer than `limit` exist. |
| ItemBased.FromYaml | modeling/models/item_based.py:52-88 | A missing file gives `FileNotFoundError` and an empty document `TypeError`. `ValueError` iff the `item_based` section is absent. Otherwise each field is read from the section, falling back to the default when absent. |
| ItemBased.EmptySectionDefaults | modeling/models/item_based.py:74-75 | An `item_based` section with no fields gives the default configuration. |
| ItemBased.TopKIndices | modeling/models/item_based.py:209-210 | `argpartition(row, -k)[-k:]`: k in-range indices, or every index when k = 0. |
| ItemBased.PrunedRow | modeling/models/item_based.py:201-216 | The row as the code prunes it, with the same length as the input row. |
| ItemBased.PrunedRowWell | modeling/models/item_based.py:205-216 | The pruned row never keeps its own diagonal. Each kept entry is positive and equal to the original score. A dropped positive off-diagonal score is at most every kept one. With at most k items, and (as written) with k = 0, every positive off-diagonal score is kept. |
| ItemBased.SelectedDominates | modeling/models/item_based.py:209-213 | A positive score left out of the top-k selection is at most every selected score. |
| ItemBased.TopZeroKeepsAll | modeling/models/item_based.py:209-213 | With k = 0 the code keeps every positive off-diagonal score (two in the example row), not none. |
| ItemBased.PrunedRowCount | modeling/models/item_based.py:209-213 | For k > 0 the pruned row has at most k non-zero entries. |
| ItemBased.PrunedRowIntended | modeling/models/item_based.py:201-216 | The corrected pruning keeps at most k non-zero entries for every k, including 0, and has every other property of the pruned row. |
| ItemBased.BuildTopKSimilarity | modeling/models/item_based.py:196-222 | The result has the input's shape, and each row is the program's pruning (`PrunedRow`) of the matching input row. With `k = 0` that keeps every positive off-diagonal score. |
| ItemBased.PrunedModelWell | modeling/models/item_based.py:205-216 | In every stored row the diagonal is zero and each kept entry is its positive original score. No dropped positive score exceeds a kept one, and for k > 0 at most k entries remain. A row with at most k items keeps every positive off-diagonal score. |
| ItemBased.Candidates | modeling/models/item_based.py:273-277 | The candidates are exactly the indices other than the query whose similarity is positive, each with its own score, in index order. |
| ItemBased.RankedSpec | modeling/models/item_based.py:273-286 | The result is a `top_n` prefix of the candidates, sorted by score descending and then index ascending. Every candidate left out ranks below every kept one, and with fewer than `top_n` results every candidate is kept. |
| ItemBased.RecommendOf | modeling/models/item_based.py:259-286 | `ValueError` iff the model was never fitted. `None` for an unknown movie. A non-empty answer holds at most `top_n` rows. |
| ItemBased.FittedRecommendSucceeds | modeling/models/item_based.py:259-286 | After `fit`, every known movie gets an answer rather than an error. |
| ItemBased.RecommendTotal | modeling/models/item_based.py:273-286 | With a consistent mapping, each answered neighbour is a known movie other than the query, with its matrix score. |
| ItemBased.RecommendNamed | modeling/models/item_based.py:288-291 | A non-empty answer has one entry per ranked candidate, in rank order, each named through `idx_to_movie` and paired with its score. |
| ItemBased.RecommendComplete | modeling/models/item_based.py:273-286 | With a consistent mapping, an answer shorter than `top_n` holds every positive-similarity neighbour of the query, named, with its score. |
| ItemBased.ItemBasedRecommender.constructor | modeling/models/item_based.py:102-107 | The given or default configuration, with no matrix and no mapping. |
| ItemBased.ItemBasedRecommender.Fit | modeling/models/item_based.py:115-138 | `ValueError` iff the preprocessing rejects the frame, and then the state is unchanged. Otherwise the mapping is the sorted-id bijection and the matrix is the program's top-k pruning (`PrunedRow`) of the given cosine matrix. |
| ItemBased.ItemBasedRecommender.BuildSimilarityMatrix | modeling/models/item_based.py:140-172 | Each row of the stored matrix is the program's top-k pruning (`PrunedRow`) of the matching cosine row. The configuration and the mapping are unchanged. |
| ItemBased.ItemBasedRecommender.Recommend | modeling/models/item_based.py:242-286 | Answers exactly as `RecommendOf` on the current matrix and mapping. |
| ItemBased.ItemBasedRecommender.CollectCandidates | modeling/models/item_based.py:273-276 | The loop collects exactly `Candidates`: the indices other than the query with positive similarity, in index order, each with its score. |
| ItemBased.ItemBasedRecommender.Save | modeling/models/item_based.py:306-314 | `ValueError` iff the model was never fitted. Otherwise the saved configuration, matrix and mapping. |
| ItemBased.ItemBasedRecommender.Load | modeling/models/item_based.py:334-371 | `FileNotFoundError` iff the file is missing. Otherwise a fresh instance with the saved configuration, matrix and mapping. |
| SvdPipeline.SVDRecommenderPipeline.constructor | modeling/models/svd.py:73-90 | The given or default configuration, with every stage field empty. |
| SvdPipeline.SVDRecommenderPipeline.Predict | modeling/models/svd.py:95-107 | `ValueError` iff no model has been trained. Otherwise the model's estimate. |
| SvdPipeline.SVDRecommenderPipeline.LoadData | modeling/models/svd.py:112-123 | The answer of the ratings loader, stored as `df_raw` on success, with nothing changed on failure. |
| SvdPipeline.Preprocessed | modeling/models/svd.py:132-164 | `ValueError` without input. Otherwise the filter's errors, or the filtered frame and its id mapping. A frame that survives the filter is always mapped. |
| SvdPipeline.SVDRecommenderPipeline.PreprocessData | modeling/models/svd.py:132-164 | Uses the given frame or `df_raw`. On success it stores `df_filtered`, `df_preprocessed` and `id_mapping` and changes nothing else. On failure it changes nothing. |
| SvdPipeline.SVDRecommenderPipeline.PrepareSurpriseDataset | modeling/models/svd.py:166-197 | `ValueError` without preprocessed data. Otherwise it stores one `(user, movie, rating)` observation per preprocessed row. |
| SvdPipeline.SplitPartitions | modeling/models/svd.py:211-215 | The train and test parts together are a permutation of the dataset. |
| SvdPipeline.SVDRecommenderPipeline.SplitTrainTest | modeling/models/svd.py:199-241 | `ValueError` without a dataset. Otherwise both parts are stored, and a `ZeroDivisionError` arises exactly when either part is empty, from the overlap log. |
| SvdPipeline.SVDRecommenderPipeline.Train | modeling/models/svd.py:243-280 | `ValueError` without a trainset. Otherwise the given model is stored and nothing else changes. |
| SvdPipeline.Overlap | modeling/models/svd.py:313-314 | `ZeroDivisionError` iff the test set is empty. Otherwise a percentage in [0, 100] that is 100 iff test ⊆ train and 0 iff they are disjoint. |
| SvdPipeline.SharedSize | modeling/models/svd.py:313-314 | \|train ∩ test\| ≤ \|test\|, with equality iff test ⊆ train. |
| SvdPipeline.OverfitVerdict | modeling/models/svd.py:329-334 | Exactly one verdict: overfitting iff the RMSE gap exceeds 0.1, similar iff it is below 0.05, acceptable otherwise. |
| SvdPipeline.VerdictMonotone | modeling/models/svd.py:329-334 | A larger RMSE gap never gives a milder verdict. |
| SvdPipeline.SVDRecommenderPipeline.Evaluate | modeling/models/svd.py:282-336 | Raises in the source's order: `ValueError` without a model, `TypeError` without a testset, `ValueError` from `accuracy.rmse` on an empty testset, then `AttributeError` without a trainset and `ValueError` on an empty one, all before the overlap's division. On success it stores the metrics, with both overlaps in [0, 100], and returns the verdict. |
| SvdPipeline.UnseenMovies | modeling/models/svd.py:364-369 | Exactly the preprocessed movies that the user has not rated. |
| SvdPipeline.Merge | modeling/models/svd.py:381 | The left join keeps every input row at least once. Each output row is an input row paired with a movie of the same id, or with `None` when the table has none. |
| SvdPipeline.MergeUnique | modeling/models/svd.py:381 | With unique movie ids, the join keeps exactly the input rows, in order. |
| SvdPipeline.RecommendedRows | modeling/models/svd.py:380-382 | The joined, sorted, cut predictions are non-increasing, each an unseen movie with its prediction. With unique movie ids they are a top-n of the unseen movies. |
| SvdPipeline.WatchedRows | modeling/models/svd.py:385-386 | `top_watched` rows are the user's own rows, joined. With unique movie ids they are `head(n)` of those rows by rating: exactly `min(n, own)` rows for `n >= 0`, non-increasing, and no row left out rated above one kept. |
| SvdPipeline.SVDRecommenderPipeline.RecommendForUser | modeling/models/svd.py:338-388 | `ValueError` without a model, `TypeError` without preprocessed data, `ValueError` iff the user is absent, and `KeyError` when the user has no unseen movie, because the empty frame has no `movie_id` to merge on. Otherwise the recommendations are left-joined with the movie table, non-increasing, each an unseen movie with its prediction. `top_watched` holds the user's own rows, joined. With unique movie ids both are top-n, and `top_watched` has exactly as many rows as `head(n)` of the user's rows. |
| SvdPipeline.SVDRecommenderPipeline.SaveModel | modeling/models/svd.py:390-420 | `ValueError` iff no model has been trained. Otherwise the saved configuration, model, mapping, metrics and preprocessed rows. |
| SvdPipeline.SVDRecommenderPipeline.LoadModel | modeling/models/svd.py:422-449 | `FileNotFoundError` iff the file is missing. Otherwise a fresh pipeline holding the saved configuration, model, mapping, metrics and preprocessed rows, with `df_raw`, `df_filtered` and the dataset and splits left empty. |
| SvdPipeline.SVDRecommenderPipeline.RunFullPipeline | modeling/models/svd.py:451-485 | A loader error, then a preprocessing error, is returned as is. After preprocessing, `ZeroDivisionError` iff the split leaves the train or the test set empty. A success stores the split, the preprocessed frame, the model and the metrics. The metrics carry the given errors, the train/test user and item overlaps, and the verdict for the errors. |
| SvdPipeline.FilteredFrameMaps | modeling/models/svd.py:145-160 | A frame that passes the minimum-count filter always passes the id mapping. |
| Catalogue.FirstRow | modeling/models/recommender.py:116 | The first position of an id in the movie list, or `None` iff it is absent. The source reads an index label here; see "## Left out". |
| Catalogue.NormalizedRange | modeling/models/recommender.py:217 | `(x - lo) / (hi - lo + 1e-10)` lies in [0, 1) for lo ≤ x ≤ hi. |
| Catalogue.NormalizedMonotone | modeling/models/recommender.py:217-220 | The normalisation is strictly increasing in its argument. |
| Ranking.SkipTopSpec | modeling/models/recommender.py:154 | `sorted(...)[1:n+1]` is the sorted list without its first entry, cut to its prefix and non-increasing. For n >= 0 it has min(n, len - 1) entries; for negative n, the Python slice length. |
| Ranking.SkipTopLength | modeling/models/recommender.py:154 | For n >= 0, `[1:n+1]` keeps n entries, or all but the first when fewer exist. |
| Ranking.SkipTopDropsQuery | app/utils/recommender.py:136-147 | When the queried movie is strictly most similar to itself, the dropped entry is the query. It then appears nowhere in the result, and ties are ordered by position. |
| Ranking.PredictAll | modeling/utils/reco.py:32-37 | Each candidate is predicted exactly once, with its own score. |
| Ranking.TopRowsAll | modeling/models/svd.py:382 | `sort_values(...).head(n)` keeps n rows, or every row when fewer exist. |
| Ranking.SortFirsts | modeling/models/svd.py:381-382 | Sorting the joined rows by prediction and then dropping the movie columns gives the predictions sorted alone. |
| ModelingRecommender.ContentRow | modeling/models/recommender.py:118-123 | One `(position, similarity)` pair per catalogue row, taken from the query's TF-IDF similarity row. |
| ModelingRecommender.ContentNeighbours | modeling/models/recommender.py:118-154 | Content neighbours are the stable descending ranking without its first entry, min(n, rows - 1) of them, each with its similarity to the query. No dropped entry ranks above a kept one. |
| ModelingRecommender.ContentDropsSelf | modeling/models/recommender.py:154 | When the query is strictly most similar to itself, it is the entry dropped. |
| ModelingRecommender.CollaborativeNeighbours | modeling/models/recommender.py:124-154 | Collaborative neighbours are catalogue rows of mapped movies with their item similarity, ranked stably without the top entry, min(n, len - 1) of them. No dropped row ranks above a kept one. |
| ModelingRecommender.CbScores | modeling/models/recommender.py:180-186 | Without rated positions or TF-IDF, every content score is 0. Otherwise each score is the similarity between the profile of all the user's rated positions and that movie. |
| ModelingRecommender.HybridFollowsCf | modeling/models/recommender.py:217-236 | With `cb_weight` = 0 and `cf_weight` > 0, the hybrid list is ordered by the SVD prediction, and every unseen movie left out predicts no higher than a listed one. |
| ModelingRecommender.WeightedOrder | modeling/models/recommender.py:217-220 | With `cb_weight` = 0 and positive `cf_weight`, a hybrid score at least as high means a prediction at least as high. |
| ModelingRecommender.ListedBounds | modeling/models/recommender.py:193-203 | The min/max of the unseen predictions bound every unseen prediction, defaulting to (0, 5) when there are none. |
| ModelingRecommender.CfNormalizedRange | modeling/models/recommender.py:217 | Every unseen movie's `cf_normalized` lies in [0, 1). |
| ModelingRecommender.MovieRecommenderLite.constructor | modeling/models/recommender.py:14-23 | No model, no mapping, no TF-IDF. |
| ModelingRecommender.MovieRecommenderLite.TrainCollaborativeFiltering | modeling/models/recommender.py:26-63 | Stores the sorted-id bijection and the given model, and leaves the TF-IDF model alone. |
| ModelingRecommender.MovieRecommenderLite.TrainContentBased | modeling/models/recommender.py:65-74 | Stores the TF-IDF model and nothing else. |
| ModelingRecommender.MovieRecommenderLite.RecommendForUser | modeling/models/recommender.py:76-108 | `TypeError` before training and empty for an unknown user. Otherwise a top-n by prediction of the mapped, unrated movies that have metadata. |
| ModelingRecommender.MovieRecommenderLite.FindSimilarMovies | modeling/models/recommender.py:110-168 | Empty for an unknown movie or method, an untrained method, or an unmapped collaborative movie. Otherwise the neighbours of that method with the top entry skipped. |
| ModelingRecommender.MovieRecommenderLite.HybridRecommend | modeling/models/recommender.py:170-238 | `TypeError` before training and empty for an unknown user. Otherwise a top-n of unseen mapped movies with metadata, each scored `cf_weight·cf_normalized + cb_weight·cb`. |
| AppRecommender.RatingsTable.AddIndexColumns | app/utils/recommender.py:43-44 | Adds the `user_idx`/`movie_idx` columns to the caller's frame in place and keeps its rows. |
| AppRecommender.UserColumn | app/utils/recommender.py:43 | Each row's user index is the mapping's index of its user id. |
| AppRecommender.MovieColumn | app/utils/recommender.py:44 | Each row's movie index is the mapping's index of its movie id. |
| AppRecommender.MappingCovers | app/utils/recommender.py:31-44 | Every row's user id and movie id are keys of the sorted-id mapping, so the index columns are defined for every row. |
| AppRecommender.Triplets | app/utils/recommender.py:46-49 | One `(user_idx, movie_idx, rating)` triple per row. |
| AppRecommender.RatingMatrix | app/utils/recommender.py:40-49 | The sparse matrix is sized by the distinct users and movies, and every entry lies inside it. |
| AppRecommender.PredictedRows | app/utils/recommender.py:103-116 | Exactly the mapped, unrated movies with metadata, each with its predicted score. |
| AppRecommender.CollectPredicted | app/utils/recommender.py:103-116 | The prediction loop collects exactly `PredictedRows`. |
| AppRecommender.RecommendSpec | app/utils/recommender.py:90-124 | For a known user the answer is non-increasing, at most n rows, each an eligible mapped movie with its prediction. No eligible movie left out scores above a kept one, and with fewer than n rows every eligible movie is kept. |
| AppRecommender.ItemRows | app/utils/recommender.py:150-167 | `IndexError` iff a neighbour's non-empty id is missing from the catalogue. Otherwise at most one row per neighbour, each a table row with a similarity of a ranked neighbour. |
| AppRecommender.ItemRowsSound | app/utils/recommender.py:150-167 | Each result row is `(first table row of idx_to_movie[j], score of j)` for a ranked neighbour `j` whose id is non-empty and listed: a movie is never paired with another item's score. |
| AppRecommender.ItemRowsComplete | app/utils/recommender.py:150-167 | Every ranked neighbour whose id is non-empty and listed gives its row: nothing named is dropped. |
| AppRecommender.ItemNeighbours | app/utils/recommender.py:150-167 | The neighbour loop of the collaborative branch computes `ItemRows`, stopping with `IndexError` at the first id missing from the catalogue. |
| AppRecommender.ItemRowsOrder | app/utils/recommender.py:150-167 | The item neighbours are non-increasing in similarity, and each has a score from the query's similarity row. |
| AppRecommender.CollaborativeSpec | app/utils/recommender.py:137-167 | Item-based similar movies are non-increasing and at most n rows. Each is the first table row of a listed item `j`'s movie with `j`'s own similarity `sims[j]`. A listed item left out, other than the top-ranked one, scores no higher than any kept neighbour. When every item index names a movie there are exactly min(n, len - 1). |
| AppRecommender.CollaborativeRoute | app/utils/recommender.py:137-150 | For a listed, mapped movie the collaborative branch is the renaming of its similarity row, ranked without the top entry. |
| AppRecommender.CollaborativeRows | app/utils/recommender.py:147-167 | The renamed neighbours are non-increasing and at most n. Each is the first table row of a listed item `j`'s movie with `sims[j]`. |
| AppRecommender.CollaborativePaired | app/utils/recommender.py:147-167 | Each neighbour pairs a listed item's movie with that item's own similarity. |
| AppRecommender.CollaborativeDominance | app/utils/recommender.py:137-167 | A listed item other than the top-ranked one whose row is missing scores no higher than every neighbour. |
| AppRecommender.CollaborativeLength | app/utils/recommender.py:147-167 | When every item index names a movie, the renamed neighbours number min(n, len - 1). |
| AppRecommender.ItemRowsNamedLength | app/utils/recommender.py:150-167 | When every ranked index names a movie, each one gives a result row. |
| AppRecommender.AddRow | app/utils/recommender.py:196 | Numpy broadcasting: an error iff the lengths differ and the row is not of length 1. Otherwise the elementwise sum. |
| AppRecommender.CbSum | app/utils/recommender.py:185-196 | Without content similarity, every content score is 0. Otherwise the sum has one score per catalogue movie. |
| AppRecommender.Rescaled | app/utils/recommender.py:199-200 | `ValueError` iff there are no scores, as the maximum of an empty array. Otherwise the same length. |
| AppRecommender.RescaledMax | app/utils/recommender.py:199-200 | When the maximum is positive, no rescaled score exceeds 5 and the maximum becomes exactly 5. |
| AppRecommender.HybridRows | app/utils/recommender.py:203-225 | Exactly the unrated catalogue movies, scored `cf_weight·cf + cb_weight·cb`, with cf 0 outside the mapping. |
| AppRecommender.HybridSpec | app/utils/recommender.py:171-232 | For a known user the hybrid answer is non-increasing, at most n rows, each an unrated catalogue movie with its weighted score. No unrated movie left out scores above a kept one, and with fewer than n rows every unrated movie is kept. |
| AppRecommender.MovieRecommender.constructor | app/utils/recommender.py:17-25 | Every model field empty. |
| AppRecommender.MovieRecommender.TrainCollaborativeFiltering | app/utils/recommender.py:28-61 | Writes the index columns into the caller's frame, stores the bijection and the matrix, and gives `ValueError` iff `svds` cannot take that many factors. Otherwise it stores the reconstruction. |
| AppRecommender.MovieRecommender.TrainItemBased | app/utils/recommender.py:64-73 | `ValueError` iff collaborative training has not run. Otherwise it stores the item similarity. |
| AppRecommender.MovieRecommender.TrainContentBased | app/utils/recommender.py:76-88 | Stores the content similarity and nothing else. |
| AppRecommender.MovieRecommender.RecommendForUser | app/utils/recommender.py:90-124 | Answers exactly as the specification function whose properties `RecommendSpec` states. |
| AppRecommender.MovieRecommender.FindSimilarMovies | app/utils/recommender.py:126-169 | Answers exactly as the specification function whose properties `CollaborativeSpec` states. |
| AppRecommender.MovieRecommender.HybridRecommend | app/utils/recommender.py:171-232 | Answers exactly as the specification function whose properties `HybridSpec` states. |
| AppRecommender.AccumulateContent | app/utils/recommender.py:189-196 | The loop summing the rows of the high-rated movies computes `CbSum`. |
| AppRecommender.WeightRows | app/utils/recommender.py:204-225 | The hybrid scoring loop computes `HybridRows`. |
| AppLiteRecommender.ColumnRows | app/utils/recommender_lite.py:136-142 | Exactly the mapped catalogue movies, each with its column similarity to the query. |
| AppLiteRecommender.CollectColumns | app/utils/recommender_lite.py:136-142 | The collecting loop computes `ColumnRows`. |
| AppLiteRecommender.CollaborativeNeighbours | app/utils/recommender_lite.py:126-147 | Collaborative neighbours are non-increasing, min(n, len - 1) of them, each the first table row of a listed, named column with its similarity. No dropped row ranks above a kept one. |
| AppLiteRecommender.LiteRows | app/utils/recommender_lite.py:186-210 | Exactly the mapped, unrated columns with metadata, each scored by the blend. |
| AppLiteRecommender.HybridSpec | app/utils/recommender_lite.py:163-217 | For a known user the answer is non-increasing, at most n rows, each a kept column's movie with its weighted score. No kept column left out scores above a kept row, and with fewer than n rows every kept column is there. |
| AppLiteRecommender.LiteNormalizedRange | app/utils/recommender_lite.py:196 | The whole-row min/max normalisation puts every column in [0, 1). |
| AppLiteRecommender.MovieRecommenderLite.constructor | app/utils/recommender_lite.py:18-27 | Every model field empty. |
| AppLiteRecommender.MovieRecommenderLite.TrainCollaborativeFiltering | app/utils/recommender_lite.py:30-63 | Writes the index columns into the caller's frame, stores the bijection and the matrix, and gives `ValueError` iff the factor count does not fit. Otherwise it stores the reconstruction. |
| AppLiteRecommender.MovieRecommenderLite.TrainContentBased | app/utils/recommender_lite.py:66-75 | Stores the TF-IDF model and nothing else. |
| AppLiteRecommender.MovieRecommenderLite.RecommendForUser | app/utils/recommender_lite.py:77-110 | Answers exactly as the shared recommendation specification. |
| AppLiteRecommender.MovieRecommenderLite.FindSimilarMovies | app/utils/recommender_lite.py:112-161 | Answers exactly as the specification function whose collaborative branch `CollaborativeNeighbours` states. |
| AppLiteRecommender.MovieRecommenderLite.HybridRecommend | app/utils/recommender_lite.py:163-217 | Answers exactly as the specification function whose properties `HybridSpec` states. |
| Reco.Unseen | modeling/utils/reco.py:29 | Exactly the rated movies that the user has not rated. |
| Reco.UnknownUserSeesAll | modeling/utils/reco.py:29 | An unknown user gets every movie as a candidate and no error. |
| Reco.Joined | modeling/utils/reco.py:41 | The inner join keeps exactly the rows whose movie has metadata. |
| Reco.JoinedUnique | modeling/utils/reco.py:41 | With unique metadata ids, the join is a plain filter. |
| Reco.RankedJoin | modeling/utils/reco.py:40-51 | The joined, sorted and cut predictions are a top-n of the unseen movies with metadata. |
| Reco.TopWatchedSpec | modeling/utils/reco.py:44-48 | `top_watched` holds the user's own rows with metadata, non-increasing by rating, at most n. |
| Reco.RecommendMovies | modeling/utils/reco.py:12-53 | Recommendations are non-increasing, at most n, drawn from unseen movies with metadata, each with its estimate (`pred.est` or `pred`), and none beaten by a movie left out. With unique metadata ids they form a top-n. |
| DataIntegration.CleanFirebase | modeling/utils/data_integration.py:40-42 | Exactly the usable Firebase rows (ids present, 0.5 ≤ rating ≤ 5.0), renamed to rating rows. |
| DataIntegration.LoadFirebaseData | modeling/utils/data_integration.py:29-49 | A failed fetch, no rows or missing columns give an empty frame. Otherwise the cleaned rows. |
| DataIntegration.KeepLast | modeling/utils/data_integration.py:100 | `drop_duplicates(keep='last')`: a subsequence holding exactly the last row per pair. |
| DataIntegration.IntegrateData | modeling/utils/data_integration.py:63-111 | Empty when both sources are empty, and a copy of the other source when one is empty. Otherwise the deduplicated concatenation. |
| DataIntegration.FirebaseOverrides | modeling/utils/data_integration.py:96-100 | A Firebase row overrides the original row for its pair, and each pair occurs once. |
| DataIntegration.IntegrateKeepsOrder | modeling/utils/data_integration.py:96-100 | The result is a subsequence of original followed by Firebase rows. |
| DataIntegration.GetDataStatistics | modeling/utils/data_integration.py:113-132 | Empty data gives zero counts. `KeyError` iff a column is missing. Otherwise the row count, distinct users and movies, mean and distribution. |
| DataIntegration.StatisticsBounds | modeling/utils/data_integration.py:124-130 | The distinct counts are at most the row count, every distribution entry is at least 1, and the mean lies within the rating bounds. |
| DataIntegration.AverageBounds | modeling/utils/data_integration.py:128 | The mean of ratings within bounds is within them. |
| DataIntegration.FilterData | modeling/utils/data_integration.py:134-165 | Without the id columns, the input unchanged. Otherwise exactly the surviving rows, and no error on an empty result. |
| DataIntegration.FilterDataAgrees | modeling/utils/data_integration.py:144-161 | Agrees with `filter_by_min_counts` when that succeeds, and is empty when it rejects for lack of survivors. |
| DataLoader.GetDataPath | data_scraping/common/data_loader.py:9-16 | The path ends in `data_scraping/data`. |
| DataLoader.DataPathOfModule | data_scraping/common/data_loader.py:12-16 | For the module's own location, the path is `<root>/data_scraping/data`. |
| DataLoader.RawMovies | data_scraping/common/data_loader.py:26-43 | Every kept field list has at least 11 fields. |
| DataLoader.RawMoviesMembers | data_scraping/common/data_loader.py:26-43 | The kept field lists are exactly those of the stripped, split lines with at least 11 fields. |
| DataLoader.ReadMovieInfo | data_scraping/common/data_loader.py:26-43 | The reading loop computes `RawMovies`, the field lists of the long-enough lines in file order. |
| DataLoader.Coerce | data_scraping/common/data_loader.py:45-49 | A row survives iff `avg_score` reads as a decimal number (`ParseFloat`). It keeps its fields, and `review_count` is present only with a 12th field. |
| DataLoader.CoerceAll | data_scraping/common/data_loader.py:45-49 | Exactly the coercible rows. |
| DataLoader.MoviesOf | data_scraping/common/data_loader.py:19-51 | `FileNotFoundError` iff the file is missing. `KeyError` when no line qualifies, because the empty frame has no `avg_score`. |
| DataLoader.LoadMovieData | data_scraping/common/data_loader.py:19-51 | Answers exactly `MoviesOf`, whose results `MoviesLoaded` characterises. |
| DataLoader.MoviesLoaded | data_scraping/common/data_loader.py:26-51 | An error iff no line has 11 fields. Otherwise exactly the coercible rows of the file's lines. |
| DataLoader.RatingOfLine | data_scraping/common/data_loader.py:63-73 | A line gives a rating iff it has at least 4 `/` fields and its 4th parses as a decimal float. The rating carries the first three fields and that value. |
| DataLoader.ParsedRatings | data_scraping/common/data_loader.py:62-73 | Each line gives at most one rating. |
| DataLoader.ParsedRatingsMembers | data_scraping/common/data_loader.py:62-73 | A rating is collected iff some line reads as exactly that rating. |
| DataLoader.ReadRating | data_scraping/common/data_loader.py:63-73 | One loop step gives `RatingOfLine`: a rating iff the line has 4 fields and its fourth parses as a float. Otherwise nothing, since the `ValueError` is skipped. |
| DataLoader.ReadRatings | data_scraping/common/data_loader.py:62-73 | The reading loop collects `ParsedRatings`, the per-line ratings in file order. |
| DataLoader.RatingsOf | data_scraping/common/data_loader.py:54-78 | `FileNotFoundError` iff the file is missing. Otherwise the id columns are present and every rating lies in [0, 5]. |
| DataLoader.LoadRatingsData | data_scraping/common/data_loader.py:54-78 | The line loop computes `RatingsOf`. |
| DataLoader.RatingsLoaded | data_scraping/common/data_loader.py:61-76 | `KeyError` iff no line parses. Otherwise exactly the parsed ratings within [0, 5]. |
| DataLoader.RatingLine | data_scraping/common/data_loader.py:63-70 | A line `u/m/t/v` reads back as that rating. |
| DataLoader.AppFilterData | app/utils/data_loader.py:71-86 | `KeyError` iff the id columns are missing. Otherwise exactly the surviving rows, with no empty check. |
| DataLoader.AppFilterMatchesIntegrator | app/utils/data_loader.py:71-86 | The app filter and the integrator's filter give the same rows. |
| DataLoader.LoadedRatingsFilter | app/utils/data_loader.py:65-86 | Filtering successfully loaded ratings never raises. |
| DataCleaner.CollapsedText | data_scraping/common/data_cleaner.py:26-32 | No `/`, newline, tab or CR remains, and whitespace is collapsed. |
| DataCleaner.RemoveAll | data_scraping/common/data_cleaner.py:35-37 | No removed character remains, and nothing new appears. |
| DataCleaner.Cleaned | data_scraping/common/data_cleaner.py:22-39 | No removed character remains, and there is no leading or trailing whitespace. |
| DataCleaner.CleanText | data_scraping/common/data_cleaner.py:11-39 | The loop version computes `Cleaned`. It contains no `/`, `\n`, `\t` or `\r`, and is collapsed without `remove_chars`. |
| DataCleaner.CleanedNoDelimiters | data_scraping/common/data_cleaner.py:26-32 | The cleaned text contains no `/`, `\n`, `\t` or `\r`. |
| DataCleaner.CleanedCollapsed | data_scraping/common/data_cleaner.py:32-39 | Without `remove_chars` there are no doubled spaces and no edge whitespace. |
| DataCleaner.CleanTextIdempotent | data_scraping/common/data_cleaner.py:22-39 | Cleaning twice equals cleaning once. |
| DataCleaner.SanitizeForTxt | data_scraping/common/data_cleaner.py:52-58 | The result is free of `/` and newlines, collapsed, and a fixed point of cleaning. |
| DataCleaner.SanitizeIsClean | data_scraping/common/data_cleaner.py:52-58 | `sanitize_for_txt` equals `clean_text`. |
| DataCleaner.SearchNumber | data_scraping/common/data_cleaner.py:71-82 | No match iff there is no digit. Otherwise the leftmost maximal numeral: it starts at the first digit, runs over the digits, and takes a `.` fraction only when digits follow it. |
| DataCleaner.ExtractNumber | data_scraping/common/data_cleaner.py:71-82 | `None` iff the text has no digit. Otherwise the value of the leftmost numeral after removing commas: its integer digits plus its fraction digits over the matching power of 10. |
| DataCleaner.LeftmostNumeralUnique | data_scraping/common/data_cleaner.py:78 | A text has at most one leftmost maximal numeral. |
| DataCleaner.NumeralValueOfMatch | data_scraping/common/data_cleaner.py:78-82 | The match `SearchNumber` returns is that numeral, and its value is its integer part plus its fraction. |
| DataCleaner.ExtractNumberOfNatural | data_scraping/common/data_cleaner.py:71-82 | A natural number written in text, after a prefix without digits, reads back as itself. |
| DataCleaner.UnitNumberFrom | data_scraping/common/data_cleaner.py:95-106 | A unit number is found only where the unit occurs. |
| DataCleaner.UnitNumberLeftmost | data_scraping/common/data_cleaner.py:100-101 | For `시간` and `분`, the scan gives `None` iff `re.search(r'(\d+)unit')` finds no match, and otherwise the value of the digits of the leftmost match. |
| DataCleaner.UnitNumberValue | data_scraping/common/data_cleaner.py:100-104 | The number read is the leftmost match's digits or 0 without a match, and no other value fits that description. |
| DataCleaner.TimeToMinutes | data_scraping/common/data_cleaner.py:95-106 | `None` iff the input is empty. 0 when neither unit occurs. |
| DataCleaner.TimeToMinutesSpec | data_scraping/common/data_cleaner.py:95-106 | A non-empty input gives 60·h + m, with h and m read from the leftmost `(\d+)시간` and `(\d+)분` matches and a missing unit counted as 0. |
| DataCleaner.TimeToMinutesOfMinutes | data_scraping/common/data_cleaner.py:95-106 | `"{m}분"` gives m: a missing hour part counts as 0. |
| DataCleaner.TimeToMinutesOfHours | data_scraping/common/data_cleaner.py:95-106 | `"{h}시간"` gives 60·h: a missing minute part counts as 0. |
| DataCleaner.TimeToMinutesRoundTrip | data_scraping/common/data_cleaner.py:95-106 | `"{h}시간 {m}분"` gives 60·h + m. |
| DataCleaner.ExtractMovieAge | data_scraping/common/data_cleaner.py:121-133 | Empty input gives `None`. After stripping, `전체` gives `'12'` and `청불` gives `'19'`. Any other text gives `str(int(x))` for `x = extract_number(text)` when x is present and non-zero, and `None` when x is missing or 0. |
| DataCleaner.ExtractMovieAgeOfNumber | data_scraping/common/data_cleaner.py:121-133 | `"{n}세"` gives `str(n)`. |
| DataCleaner.RemoveEmojis | data_scraping/common/data_cleaner.py:149-161 | Keeps exactly the characters outside the listed ranges, each as often as in the input. |
| DataCleaner.RemoveEmojisConcat | data_scraping/common/data_cleaner.py:149-161 | The filter works character by character: one character is dropped iff it is in the class, and a concatenation is cleaned part by part, so the kept characters stay in order. |
| DataCleaner.RemoveEmojisDeletesHangul | data_scraping/common/data_cleaner.py:149-161 | The range U+24C2–U+1F251 also removes Hangul: `영화` becomes empty. |
| DataCleaner.EmojiNarrowsClass | data_scraping/common/data_cleaner.py:149-161 | The corrected class lies inside the written one. It contains no East Asian character (Hangul, the CJK radicals, punctuation, kana and ideographs, the compatibility ideographs, the halfwidth and fullwidth forms), and the written class contains all of them except the Hangul Jamo block U+1100–U+11FF. |
| DataCleaner.RemoveOnlyEmojis | data_scraping/common/data_cleaner.py:149-161 | The corrected filter removes only emoji and pictographs: the five listed ranges, and of U+24C2–U+1F251 only its symbol blocks. It keeps every other character, each as often as in the input, and nothing in the emoticon and pictograph ranges survives. |
| DataCleaner.RemoveOnlyEmojisConcat | data_scraping/common/data_cleaner.py:149-161 | The corrected filter also works character by character and keeps the order. |
| DataCleaner.RemoveOnlyEmojisKeepsText | data_scraping/common/data_cleaner.py:149-161 | Text of East Asian characters and characters outside the written class, such as a Korean, Japanese or Chinese title, passes the corrected filter unchanged. |
| DataCleaner.RemoveOnlyEmojisWithinWritten | data_scraping/common/data_cleaner.py:149-161 | The corrected filter never keeps fewer characters than the written one, and the two agree on text with no character in U+24C2–U+1F251. |
| DataCleaner.RemoveOnlyEmojisExample | data_scraping/common/data_cleaner.py:149-161 | `영😀の` becomes `영の`: the emoji goes, and the Korean and Japanese letters stay. |
| DataCleaner.RemoveEmojisMixedExample | data_scraping/common/data_cleaner.py:149-161 | The written pattern turns the same `영😀の` into the empty string. |
| DataCleaner.ParseMovieInfoLine | data_scraping/common/data_cleaner.py:174-178 | Items are stripped, non-empty and contain no `·`. Empty input gives `[]`, and any other line gives the stripped, non-empty parts of its `·` split. |
| DataCleaner.StrippedNonEmptyConcat | data_scraping/common/data_cleaner.py:178 | Stripping and dropping empty items works part by part, so the kept items stay in order. |
| DataCleaner.ParseMovieInfoLineOfFields | data_scraping/common/data_cleaner.py:174-178 | A non-empty line made of `·`-free fields parses to the strips of its fields, empty ones dropped, in order. |
| DataCleaner.ParseMovieInfoLineJoin | data_scraping/common/data_cleaner.py:174-178 | Joining stripped, non-empty, `·`-free items with `·` and parsing gives them back. |
| LegacyRe.TimeToMinutes | data_scraping/legacy/old_utils/re.py:4-16 | 0 for empty input. Otherwise agrees with the current `time_to_minutes`. |
| LegacyRe.ExtractNumber | data_scraping/legacy/old_utils/re.py:18-27 | Agrees with the current `extract_number`. |
| LegacyRe.ExtractMovieAge | data_scraping/legacy/old_utils/re.py:29-35 | `전체` gives 12 and `청불` gives 19, without stripping. Any other text gives exactly the float `extract_number(text)` when there is one, and `None` otherwise. |
| LegacyRe.ExtractMovieAgeNumberDiffers | data_scraping/legacy/old_utils/re.py:29-35 | The legacy helper returns a float where the current one returns a string. |
| LegacyRe.ExtractMovieAgePaddedLabelDiffers | data_scraping/legacy/old_utils/re.py:29-35 | `" 전체"` is unrecognised by the legacy helper but is `'12'` today. |
| LegacyRe.RemoveEmojis | data_scraping/legacy/old_utils/re.py:38-51 | Identical to the current `remove_emojis`. |
| Storage.RowOf | data_scraping/common/data_storage.py:163-173 | A blank line gives no row. Otherwise one row, with no field containing `/`. |
| Storage.ReadRows | data_scraping/common/data_storage.py:163-173 | A missing file gives `[]`, and no field contains `/`. |
| Storage.RecordRoundTrip | data_scraping/common/data_storage.py:148-171 | Appending one record and reading gives the old rows plus the record's fields. |
| Storage.RecordsRoundTrip | data_scraping/common/data_storage.py:148-171 | Appending several records reads back as all of them, in order. |
| Storage.SaveThenRead | data_scraping/common/data_storage.py:148-171 | A save after any existing content reads back as the old rows plus the new fields. |
| Storage.JoinedLinesAreRecords | data_scraping/common/data_storage.py:104-117 | The batch's joined lines equal one record per comment. |
| Storage.MovieInfoFields | data_scraping/common/data_storage.py:50-66 | Twelve fields, in column order. |
| Storage.CommentFields | data_scraping/common/data_storage.py:81-87 | One field per comment column. |
| Storage.CustomRatingFields | data_scraping/common/data_storage.py:131-136 | One field per rating column. |
| Storage.DataStorage.AppendToTxt | data_scraping/common/data_storage.py:140-151 | Appends exactly `'/'.join(fields) + '\n'` and leaves the other files unchanged. |
| Storage.DataStorage.SaveMovieInfo | data_scraping/common/data_storage.py:40-69 | Appends the movie record to the info file only. |
| Storage.DataStorage.SaveMovieComment | data_scraping/common/data_storage.py:71-89 | Appends the comment record to the comments file only. |
| Storage.DataStorage.SaveMovieCommentsBatch | data_scraping/common/data_storage.py:91-119 | Writes nothing for an empty batch. Otherwise appends one record per comment, in order. |
| Storage.DataStorage.SaveCustomRating | data_scraping/common/data_storage.py:121-138 | Appends the rating record to the rating file only. |
| Storage.DataStorage.ReadTxt | data_scraping/common/data_storage.py:153-173 | The rows `ReadRows` gives for the file. |
| Storage.Load | data_scraping/common/data_storage.py:175-233 | A missing file gives an empty frame. Otherwise a frame with the given columns. |
| Storage.SavedMovieInfoLoads | data_scraping/common/data_storage.py:175-233 | Saved movie records load back as those records' rows. |
| Storage.CleanedFieldsStorable | data_scraping/common/data_cleaner.py:22-39 | At least two fields that `clean_text` leaves unchanged are storable: none holds `/` or a line break, and the record has no space at its two ends. `RecordRoundTrip` then reads it back unchanged. |
| Storage.SavedCleanMovieInfoLoads | data_scraping/common/data_storage.py:40-69 | Movie-info records of cleaned fields, saved and read back, load as a frame without error. |
| Storage.MissingMovieIds | data_scraping/common/data_storage.py:235-263 | Exactly the rated movie ids that have no titled movie-info row, when both files load. Otherwise empty, as the `except` path gives. |
| Storage.TitledIdsSound | data_scraping/common/data_storage.py:250-251 | Every id in the titled-id set comes from a movie-info row with a title. |
| Storage.ColumnExact | data_scraping/common/data_storage.py:175-233 | A loaded frame is empty iff the file has no rows, and a column holds exactly the values some row has in that field. |
| Storage.MissingCommentMovieIds | data_scraping/common/data_storage.py:273-300 | Exactly the rated movie ids that are not the first field of a non-blank comment line, when the ratings load. Otherwise empty. |
| Storage.ScanFirstFields | data_scraping/common/data_storage.py:285-291 | The line loop collects exactly the first `/` field of every non-blank line. |
| Storage.DataStorage.GetMissingCommentMovieIds | data_scraping/common/data_storage.py:265-300 | Answers `MissingCommentMovieIds` for the current files. |
| Storage.CommentedMovieNotMissing | data_scraping/common/data_storage.py:273-300 | After a comment is saved for a movie, that movie is not reported missing. |
| Storage.MissingCustomIds | data_scraping/common/data_storage.py:302-330 | Exactly the `CustomID`s of the comments that have no rating row, when both files load. Otherwise empty. |
| ScrapeConfig.GetMovieUrl | data_scraping/common/config.py:72-74 | `base + "/contents/" + id`. |
| ScrapeConfig.GetCommentsUrl | data_scraping/common/config.py:76-78 | The movie URL followed by `/comments`. |
| ScrapeConfig.GetUserRatingsUrl | data_scraping/common/config.py:80-82 | `base + "/users/" + id + "/contents/movies/ratings"`. |
| ScrapeConfig.MovieUrlInjective | data_scraping/common/config.py:72-74 | Different movie ids give different URLs. |
| ScrapeConfig.UserRatingsUrlInjective | data_scraping/common/config.py:80-82 | Different user ids give different URLs. |
| ScrapeConfig.FillPlaceholder | data_scraping/common/config.py:84-89 | A template without `{i}` is unchanged. |
| ScrapeConfig.GetXpath | data_scraping/common/config.py:84-89 | `None` for an unknown key. The raw template without kwargs or placeholder. `KeyError` iff kwargs lack `i` for a template. |
| ScrapeConfig.XPathTemplates | data_scraping/common/config.py:40-65 | A key contains `{i}` iff it is a `*_template` key, and filling it substitutes exactly that placeholder. |
| ColdStart.Count | cold_start/show_random_movies.py:28 | The `value_counts` entry is positive iff the movie has a rating row. |
| ColdStart.RatedMovies | cold_start/show_random_movies.py:28-29 | Exactly the movies with a rating row. |
| ColdStart.RankedMovies | cold_start/show_random_movies.py:28 | Each rated movie once, non-increasing by count. |
| ColdStart.PoolExists | cold_start/show_random_movies.py:28-29 | A pool of min(200, #rated) rated movies always exists, with none outranked by a movie left out. |
| ColdStart.SmallCatalogueWholePool | cold_start/show_random_movies.py:28-29 | With at most 200 rated movies the pool is all of them. |
| ColdStart.SampleExists | cold_start/show_random_movies.py:39 | A sample of every size up to the population exists. |
| ColdStart.GetRandomPopularMovies | cold_start/show_random_movies.py:13-47 | The pool is a top-200 by count. `ValueError` iff n < 0. The selection avoids excluded ids and is all of the available pool when it is short, exactly n otherwise. `remaining` is the available pool minus the selection, and the rows shown are exactly the selected movies' rows. |
| FirebaseData.GenrePairs | user_system/firebase_recommender.py:294-299 | The left merge pairs each rating with the genres of its movie rows. |
| FirebaseData.Frequent | user_system/firebase_recommender.py:303 | Exactly the genres rated at least twice. |
| FirebaseData.GroupedLists | user_system/firebase_recommender.py:302-303 | The grouped rows list every frequent genre once, with its mean. |
| FirebaseData.PreferredGenresSpec | user_system/firebase_recommender.py:282-308 | At most five distinct frequent genres, non-increasing by mean, and none left out with a higher mean. |
| FirebaseData.Days | user_system/firebase_recommender.py:321-322 | The rating days, increasing, each once. |
| FirebaseData.DayValues | user_system/firebase_recommender.py:322 | The ratings of one day, non-empty iff the user rated that day. |
| FirebaseData.TrendImproving | user_system/firebase_recommender.py:326 | With ratings the trend exists, and it is improving iff the latest day's mean beats the day before it. |
| FirebaseData.TrendBounds | user_system/firebase_recommender.py:325 | `recent_avg` stays within any bounds of the ratings. |
| FirebaseData.RecentBounds | user_system/firebase_recommender.py:325 | The mean of the last 7 daily means, or of all of them, stays within their bounds. |
| FirebaseReco.PopularSpec | user_system/firebase_recommender.py:217-234 | Empty iff the collection is empty. Otherwise min(n, size) of its rows. With both columns they are sorted by popularity then average score, and no row left out ranks above a kept one. Without them they are the first rows. |
| FirebaseReco.CachedForever | user_system/firebase_recommender.py:76-84 | Once cached, every later read sees the cached frame. |
| FirebaseReco.FetchedOnce | user_system/firebase_recommender.py:76-84 | Reads before the first successful fetch see an empty frame, and all later reads see that fetch. |
| FirebaseReco.CombinedRatings | user_system/firebase_recommender.py:86-112 | Empty when the fetch fails or is empty. Otherwise a subsequence of the existing rows followed by the fetched rows, holding every pair of either exactly once. |
| FirebaseReco.ExistingWins | user_system/firebase_recommender.py:86-112 | An existing rating wins over a fetched one for the same pair, and new pairs come from the fetch. |
| FirebaseReco.LeftJoinUnique | user_system/firebase_recommender.py:195-199 | With unique movie ids, the left merge keeps one row per neighbour, with its metadata when present. |
| FirebaseReco.ColdStartAsWritten | user_system/firebase_recommender.py:120-126 | A user without ratings gets an empty recommendations slot, and one with 1-4 ratings is "recommended" their own ratings. |
| FirebaseReco.RecommendSlots | user_system/firebase_recommender.py:114-169 | Corrected chain: the popular list never fills `top_watched` and the ratings never fill the recommendations. SVD answers iff the user has five ratings and the pipeline answers. Otherwise the recommendations are neighbours or the popular list. |
| FirebaseReco.RecommendSlotsAsWritten | user_system/firebase_recommender.py:114-173 | As written: no ratings give (popular, empty) and 1-4 ratings give (popular, own ratings). SVD answers iff the user has five ratings and the pipeline answers. The item route keeps the own ratings first. Every other fallback puts the popular list first. |
| FirebaseReco.RecommendCorrection | user_system/firebase_recommender.py:120-182 | The as-written chain and the corrected one agree, except that where the program answers with the popular list first, the two slots are swapped. |
| FirebaseReco.RecommendSimilar | user_system/firebase_recommender.py:173-211 | The item route recommends the neighbours of the first highest-rated movie that have a movie-file row, as `recommend(..., return_scores=True)` hands them back, merged with the collection. |
| FirebaseReco.BestHighOf | user_system/firebase_recommender.py:179-185 | The seed is the first of the user's highest ratings of 4.0 or more. |
| FirebaseReco.ColdStartIntended | user_system/firebase_recommender.py:120-126 | Corrected: a cold-start user always gets the popular list as recommendations. |
| FirebaseReco.SimilarSpec | user_system/firebase_recommender.py:236-263 | For a consistent model and unique collection ids, every similar movie is a neighbour of the query with its own similarity and a movie-file row, never the query, non-increasing by score. Against a movie file without repeated ids there are at most n. |
| FirebaseReco.SimilarComplete | user_system/firebase_recommender.py:236-263 | With a consistent model listing fewer than n neighbours, every positive-similarity neighbour of the query that has a movie-file row is among the similar movies. |
| FirebaseReco.FileRowsMembers | modeling/models/item_based.py:294-301 | A movie-file row is kept iff its id is a neighbour's, and it carries that neighbour's score (the last one `dict(zip(...))` keeps). |
| FirebaseReco.FileRowsDistinct | modeling/models/item_based.py:294-295 | Against a movie file without repeated ids, no movie is kept twice. |
| FirebaseReco.FileRowsBound | modeling/models/item_based.py:294-295 | Against a movie file without repeated ids, no more rows are kept than there are neighbours. |
| FirebaseReco.UnlistedNeighboursFallBack | user_system/firebase_recommender.py:187-210 | A movie file that fails to load, or that has no row for any neighbour, leaves nothing to merge: `find_similar_movies` answers an empty frame and the item route takes the popular fallback. |
| FirebaseReco.SimilarOf | user_system/firebase_recommender.py:236-263 | Empty, or the merge of what `recommend` hands back with a non-empty collection. |
| FirebaseReco.FirebaseRecommender.constructor | user_system/firebase_recommender.py:37-66 | Loads each model present. A corrupt SVD file stops the item model from loading. The cache starts empty. |
| FirebaseReco.FirebaseRecommender.MovieMetadata | user_system/firebase_recommender.py:76-84 | Returns the cached frame, or the fetched one, caching it on success. |
| FirebaseReco.FirebaseRecommender.PopularMovies | user_system/firebase_recommender.py:217-234 | The popular list of the cached-or-fetched collection. |
| FirebaseReco.FirebaseRecommender.RecommendForUser | user_system/firebase_recommender.py:114-215 | Answers `recommend_for_user` as written. The popular fallbacks of the SVD route and of the item route after an empty merge read see a second read of the collection, with its own fetch. The cache is updated by one or two reads accordingly. Once the first read yields a frame, the answer is the single-frame `RecommendAsWritten`. The models are unchanged. The item route tests emptiness on the movie-file rows of the neighbours, and a movie file that fails to load gives the popular fallback. |
| FirebaseReco.SecondReadOnlyAfterEmpty | user_system/firebase_recommender.py:151-215 | When the call reads once, or the second read sees the first frame, the answer is the single-frame chain. |
| FirebaseReco.SecondReadFillsPopular | user_system/firebase_recommender.py:151-170 | On the SVD route, an empty first read followed by a second one that sees movies gives `(popular, empty)`, where a single empty frame gives two empty frames. |
| FirebaseReco.FirebaseRecommender.FindSimilarMovies | user_system/firebase_recommender.py:236-263 | Answers `SimilarOf`: empty unless `recommend` hands back a non-empty frame, which needs neighbours with movie-file rows and a movie file that loads. The collection is read only in that case. |
| FirebaseReco.FirebaseRecommender.UserPreferredGenres | user_system/firebase_recommender.py:282-312 | The preferred genres of the cached-or-fetched collection, and `[]` without ratings. |
| FileUtils.UnitOf | modeling/utils/file_utils.py:36-43 | Bytes below 1024, otherwise the largest power of 1024 not above the size, capped at GB. |
| FileUtils.RoundHalfEvenNearest | modeling/utils/file_utils.py:39-43 | `:.2f` rounds to the nearest hundredth, ties to even. |
| FileUtils.FixedTwo | modeling/utils/file_utils.py:39-43 | Two decimals whose digits spell the hundredths. |
| FileUtils.Render | modeling/utils/file_utils.py:36-43 | `"{n} bytes"` below 1 KB, otherwise the rounded value in its unit. |
| FileUtils.FormatFileSize | modeling/utils/file_utils.py:8-43 | `FileNotFoundError` iff a path is missing. Otherwise the rendering of the size. |
| FileUtils.OneKilobyte | modeling/utils/file_utils.py:19-20 | 1024 bytes render as `"1.00 KB"`. |
| FileUtils.UnitBoundary | modeling/utils/file_utils.py:38-43 | Each power of 1024 renders as `"1.00"` in its own unit. |

## Left out

- Scraping itself (Selenium, browser manager, login), Firestore and Firebase auth, the
  Streamlit UI, logging and the driver scripts are left out. They are I/O; their inputs
  and answers are parameters.
- The numeric learners are left out: Surprise `SVD` fitting and its RMSE/MAE, scipy
  `svds`, sklearn `cosine_similarity`, `TfidfVectorizer` and numpy means. Their outputs
  are given functions or matrices. `FactorsFit` stands for `svds`' factor-count check.
- Floating-point rounding and formatting are not modelled. Scores are reals, and
  `{:.2f}` is modelled on exact rationals.
- Pickle persistence is not modelled. Saved models are values, and a missing file is
  `None`. The `sys.modules` aliasing used when unpickling is left out.
- Python `None` inputs to the cleaner functions are not modelled separately; they
  take the same branch as `""`.
- `\d` is modelled as ASCII digits, and `str.isspace` as Python's whitespace set.
- pandas `str.contains` regular expressions are modelled as a case-insensitive
  substring test.
- `argpartition` breaks ties by lower index in the model. The numpy order among
  equal scores is unspecified.
- ItemBased.ItemBasedRecommender.Recommend: does not model the metadata join at
  `item_based.py:294-304`. The answer stops at the `(movie_id, score)` list. The
  Firebase recommender, which calls `recommend(..., return_scores=True)`, does model
  the join's row filter and re-sort (`FirebaseReco.Shown`). It keeps each movie-file
  row's id and score, not the file's other columns.
- The `value_counts` tie order and `random.sample` are modelled as free choices.
  `exclude_movie_ids=None` is modelled as an empty list.
- `firebase_recommender.py` imports a `MovieRecommender` that
  `modeling/models/recommender.py` does not define. The policy is modelled as if the
  import succeeded.
- `load_model` leaves `df_filtered` as `None`. The Firestore merge then uses only
  the fetched ratings, as `pd.concat` drops `None`.
- The `__main__` blocks of `svd.py`, `show_random_movies.py` and the other scripts
  are not modelled.
- pandas `sort_values` is unstable. The lemmas make no claim about the order among
  equal scores in those rankings, but the members listed below fix one admissible
  order: the stable one.
- AppRecommender.MovieRecommender.TrainCollaborativeFiltering: the method carries Streamlit's
  `@st.cache_resource`, whose key leaves out the `_self` argument. A second recommender trained on an
  equal frame gets the cached return value, its body does not run, and its fields stay `None`. The
  model always runs the body and sets the fields; it does not capture the process-wide cache.
- AppRecommender.MovieRecommender.TrainItemBased: the same `@st.cache_resource` skip is not modelled.
- AppRecommender.MovieRecommender.TrainContentBased: the same `@st.cache_resource` skip is not modelled.
  Also `df_movies['content'] = ...` adds a `content` column to the caller's movie frame in place. The
  model takes the similarity as a parameter and does not model that column or the aliasing of the
  caller's frame.
- AppLiteRecommender.MovieRecommenderLite.TrainCollaborativeFiltering: the same `@st.cache_resource`
  skip is not modelled.
- AppLiteRecommender.MovieRecommenderLite.TrainContentBased: neither the `@st.cache_resource` skip nor
  the in-place `content` column of the caller's movie frame is modelled.
- ModelingRecommender.MovieRecommenderLite.TrainContentBased: the in-place `content` column of the
  caller's movie frame is not modelled.
- Reco.RecommendMovies: the contract fixes `topWatched` to one particular order among equal
  ratings, the head of the stable descending sort. pandas' default quicksort may
  return another order of ties, so there the model promises one admissible answer
  where pandas allows any of them. The recommendations are stated only up to ties
  (non-increasing, bounded, none beaten by a movie left out).
- DataCleaner.RemoveOnlyEmojis: the corrected class is block-based. It leaves out the four emoji code
  points inside the CJK blocks (U+3030, U+303D, U+3297, U+3299), so that CJK text is kept whole. It
  also keeps the variation selectors and the zero-width joiner, which the written range deletes, so an
  emoji sequence can leave those invisible characters behind.
- AppRecommender.MovieRecommender.RecommendForUser: the ensures `r == RecommendOf(...)` fixes the
  order among equal predicted ratings to that of the stable descending sort. The
  `sort_values('predicted_rating')` at app/utils/recommender.py:121 may return another order of ties,
  so the model promises one admissible answer where pandas allows any. `RecommendSpec` states the
  result up to ties.
- AppRecommender.MovieRecommender.HybridRecommend: the ensures fixes the order among equal hybrid
  scores to the stable one, where `sort_values('hybrid_score')` at app/utils/recommender.py:229 allows
  any order of ties. `HybridSpec` states the result up to ties.
- AppLiteRecommender.MovieRecommenderLite.RecommendForUser: the ensures fixes the order among equal
  predicted ratings to the stable one, where `sort_values` at app/utils/recommender_lite.py:108 allows
  any order of ties.
- AppLiteRecommender.MovieRecommenderLite.HybridRecommend: the ensures fixes the order among equal
  hybrid scores to the stable one, where `sort_values` at app/utils/recommender_lite.py:215 allows any
  order of ties. `HybridSpec` states the result up to ties.
- FirebaseReco.FirebaseRecommender.FindSimilarMovies: through `Shown`, the ensures fixes the order
  among equal similarity scores to the stable one, where `sort_values('similarity_score')` at
  modeling/models/item_based.py:302 allows any order of ties. `SimilarSpec` states the order only up
  to ties.
- FirebaseReco.FirebaseRecommender.RecommendForUser: on the item route, through `Shown`, the ensures
  fixes the order among equal similarity scores in the same way.
- FirebaseReco.FirebaseRecommender.UserPreferredGenres: the ensures `genres == PreferredGenres(...)`
  fixes the order among genres of equal mean to the stable one, where `sort_values('mean')` at
  user_system/firebase_recommender.py:306 allows any order of ties. `PreferredGenresSpec` states the
  result up to ties.
- FirstRow: `df[df['movie_id'] == id].index[0]` is an index label, which the source
  then uses as a row position. Both loaders drop rows with `dropna` and do not reset the
  index, so after a dropped row a label differs from a position. The model takes
  positions throughout. It does not capture the wrong similarity row, or the
  `IndexError`, that a stale label gives.
- PositionsOf: the labels `isin(...).index` of the user's rated movies are read as
  positions, for the reason given for FirstRow.
- CbScores: the profile rows `tfidf_matrix[labels]` are taken at positions, for the
  reason given for FirstRow.
- CbSum: sums the similarity rows at positions where the source uses the labels at
  `app/utils/recommender.py:191-193`, for the reason given for FirstRow.
- ColumnRows: the `df_movies` labels found for each column are used as the positions
  later passed to `iloc`, for the reason given for FirstRow.
- FindSimilarMovies (of `ModelingRecommender.MovieRecommenderLite`,
  `AppRecommender.MovieRecommender` and `AppLiteRecommender.MovieRecommenderLite`):
  the query's row is found by position, not by label, for the reason given for FirstRow.
- HybridRecommend (of the same three classes): the content scores of a movie are read
  at its position, not its label, for the reason given for FirstRow.
- RatingOfLine: `float()` is modelled by `ParseFloat`, which accepts an optional sign
  and decimal digits with at most one `.`. Python also accepts forms such as
  `"1e0"`, `"4_0"`, `"nan"` and `"inf"`. A line rated so is skipped by the model
  and kept by the source when the value lies in [0, 5].
- ItemBased.ItemBasedRecommender.Fit: the `df_filtered=None` default is not modelled; the
  model always takes the frame it maps. Called without a frame, the source loads nothing
  and passes `None` to `preprocess_id_mapping`, whose `df.empty` then raises
  `AttributeError`.
- Coerce: `pd.to_numeric(..., errors='coerce')` is modelled by the decimal-only
  `ParseFloat`. Exponent forms such as `"1e0"` and `"2.5E0"`, and `"inf"`, count as
  non-numeric, so a movie line with such an `avg_score` is dropped by the model and
  kept by the source.
- CoerceAll, MoviesOf, LoadMovieData and MoviesLoaded: inherit that gap of Coerce.
- ReadRating: inherits the decimal-only `float()` of RatingOfLine.
- RatingsLoaded: does not cover files whose ratings use those other `float()` forms.
  For example, a file whose only rating is `"nan"` gives the source an empty frame and
  the model a `KeyError`.
- SearchMovies: `str.lower()` and `case=False` are modelled by an ASCII-only lower-casing.
  Other letters, such as Hangul, are compared as they are, which is what Python does
  for them. Non-ASCII letters that have a case are not folded.
- FindMovieIdByTitle: its partial match uses the same ASCII-only lower-casing as
  SearchMovies.
- GetXpath: `str.format` is modelled only for the `{i}` placeholder. Any other
  `{...}` field, or an unbalanced brace, makes the source raise `KeyError`, `IndexError`
  or `ValueError`, and the model does not produce these errors. For the built-in
  templates, `XPathTemplates` proves that no other `{` occurs.
- FromYaml: values are the integers and booleans YAML gives for these fields. A
  string, float or list value, and an `item_based:` key whose value is empty
  (`None`), are not modelled.
- ItemBased.ItemBasedRecommender.Fit: requires `top_k >= 0`. With a negative `top_k`,
  `np.argpartition(row, -k)[-k:]` keeps every index except the |k| that the partition
  puts first, or raises `ValueError` when |k| reaches the row length. That case is not
  modelled. The default `top_k` is 50.
- ItemBased.ItemBasedRecommender.BuildSimilarityMatrix: requires `top_k >= 0`, for
  the reason given for Fit.

## Findings

| source | as written | input that shows it | evidently intended | confidence | as-written member | corrected member |
|---|---|---|---|---|---|---|
| modeling/models/item_based.py:209-213 | `np.argpartition(row, -k)[-k:]` with k = 0 selects `row[-0:]`, the whole row, so every positive score is kept | `top_k = 0`, row `[1.0, 0.5, 0.3]` for item 0 keeps 0.5 and 0.3 | at most k neighbours per row, none for k = 0 | not executed | ItemBased.TopZeroKeepsAll | ItemBased.PrunedRowIntended |
| user_system/firebase_recommender.py:120-126 | a user with no ratings gets `(popular, empty)`, so the popular list sits in the `top_watched` slot and the recommendations are empty; one with 1-4 ratings gets their own ratings as recommendations | a user with no Firestore ratings, while the movie collection is not empty | the popular list in the recommendations slot | not executed | FirebaseReco.ColdStartAsWritten | FirebaseReco.ColdStartIntended |
| data_scraping/common/data_cleaner.py:149-161 | the class range `U+24C2–U+1F251` includes the Hangul syllables, so Korean text is deleted | `remove_emojis("영화")` is `""` | remove only emoji and pictographs, keeping Korean, Japanese and Chinese text | not executed | DataCleaner.RemoveEmojisDeletesHangul | DataCleaner.RemoveOnlyEmojis |

The classes model the program as written. `ItemBasedRecommender` stores `PrunedRow`,
and `FirebaseRecommender.RecommendForUser` answers `RecommendAsWritten`. Each corrected
member is a separate definition with the intended property proved about it.
`RecommendCorrection` states exactly where the two Firestore chains differ.
