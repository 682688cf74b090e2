# Recommendation and moderation services, modelled in Dafny

This project models the core of a Python service that recommends users and posts for a social
network and moderates the text people post. The model covers:

- **Score helpers** (`src/utils/helpers.py`):
  - min-max normalisation of scores;
  - order-preserving deduplication;
  - the weighted merge of two `(id, score)` rankings.
- **Embeddings** (`src/services/embeddings_service.py`):
  - how a text, a user profile, a post or a batch of texts becomes the input of the
    sentence-transformer model;
  - blank texts become zero vectors or placeholder texts.
- **Recommendation** (`src/services/recommendation_service.py`):
  - profile-similarity user recommendations;
  - content-based post recommendations;
  - collaborative post recommendations, which add up the similarity of every neighbour who
    liked a post;
  - semantic search over posts and users.
- **Moderation**, in two variants:
  - the rule-based service (`src/services/moderation_service_simple.py`), which scores
    toxicity from word lists;
  - the model-backed service (`src/services/moderation_service.py`), which asks the Detoxify
    classifier and also flags identity attacks;
  - both share `check_spam` and the verdict of `moderate_content`.

The modules follow the program:

- `Common` and `Strings` hold Python's `min`, `str.isspace`, `lower`, `isupper`, `in` and
  `count`, plus the regular expression `(.)\1{4,}`, on ASCII text.
- `StableSort` is `sorted(..., reverse=True)`.
- `ScoreUtils` is `helpers.py`, `Embeddings` is the embeddings service and `Recommendation` is
  the recommendation service.
- `ModerationPolicy` holds the verdict shared by both moderation services.
- `SpamCheck` is `check_spam`.
- `RuleModeration` and `ModelModeration` are the two moderation services.

Collaborators are parameters:

- The embedding model is an `Embedder` value.
- The two vector-index searches are functions `(embedding, limit, excluded ids) -> hits`.
- The document store is a snapshot of maps.
- The Detoxify classifier is a function that returns six scores, or `None` when it raises.

Imperative code is modelled as methods, and its loops carry invariants. Each method is proved
equal to a specification function: `deduplicate_list`, `merge_recommendations`, the nested loop of
`recommend_posts_collaborative`, `generate_user_embedding`, the keyword loop of `check_spam` and
the branch cascade of `moderate_content`. Pure code is modelled as functions. The properties are
proved about those functions.

## Model

| member | source | states |
|---|---|---|
| StableSort.SortDescending | src/utils/helpers.py:75 | `sorted(key=score, reverse=True)` is a permutation of the positions, with scores non-increasing and ties kept in their original order (stable) |
| ScoreUtils.Min | src/utils/helpers.py:19 | the minimum of a non-empty list is one of its elements and no larger than any |
| ScoreUtils.Max | src/utils/helpers.py:20 | the maximum of a non-empty list is one of its elements and no smaller than any |
| ScoreUtils.Rescale | src/utils/helpers.py:25 | element-wise `(s - lo) / (hi - lo)`, same length |
| ScoreUtils.NormalizeScores | src/utils/helpers.py:15-26 | the model of `normalize_scores`: one output per score; empty gives empty, equal extremes give 1.0 everywhere, otherwise min-max rescaling (the properties are the lemmas below) |
| ScoreUtils.NormalizeCases | src/utils/helpers.py:15-26 | all scores lie between min and max; equal min and max give 1.0 everywhere; otherwise the result is the min-max rescaling |
| ScoreUtils.RescaleBounds | src/utils/helpers.py:25 | rescaling by bounds that enclose the scores lands in [0, 1] |
| ScoreUtils.RescaleEndpoints | src/utils/helpers.py:25 | the lower bound maps to 0.0, the upper to 1.0 |
| ScoreUtils.RescaleMonotone | src/utils/helpers.py:25 | rescaling preserves the order and the strict order of scores |
| ScoreUtils.NormalizeBounds | src/utils/helpers.py:15-26 | every normalised score is in [0, 1], including the empty and all-equal cases |
| ScoreUtils.NormalizeUniform | src/utils/helpers.py:22-23 | when all scores are equal every output is 1.0 |
| ScoreUtils.NormalizeExtremes | src/utils/helpers.py:18-25 | with two distinct scores the minimum maps to 0.0 and the maximum to 1.0 |
| ScoreUtils.NormalizeMonotone | src/utils/helpers.py:15-26 | normalisation keeps the order of the scores, strict order included |
| ScoreUtils.Deduplicated | src/utils/helpers.py:39-45 | the result has no duplicates, the same elements as the input, and is no longer |
| ScoreUtils.DeduplicatedOrder | src/utils/helpers.py:39-45 | survivors appear in the order of their first occurrences |
| ScoreUtils.DeduplicatedOfDistinct | src/utils/helpers.py:39-45 | a list without duplicates is returned unchanged |
| ScoreUtils.DeduplicatedIdempotent | src/utils/helpers.py:39-45 | deduplicating twice is deduplicating once |
| ScoreUtils.DeduplicateList | src/utils/helpers.py:39-45 | the `seen`/`result` loop returns the first occurrences in order: no duplicates, same elements |
| ScoreUtils.TallyStep | src/utils/helpers.py:69 | one `d[k] = d.get(k, 0) + v` keeps the dictionary's keys the distinct ids in insertion order and each value the sum of its scores |
| ScoreUtils.AccumulateWeighted | src/utils/helpers.py:68-72 | a weighted accumulation loop extends the tallied pairs by the weighted list |
| ScoreUtils.SortedItemsAreRankedTotals | src/utils/helpers.py:75 | sorting the items of a tallying dictionary yields the ranked totals |
| ScoreUtils.RankedTotals | src/utils/helpers.py:75 | the specification of a sorted score dictionary: the total of each distinct id, in first-occurrence order, stably sorted by descending total (its properties: RankedTotalsExactlyOnce, RankedTotalsOrder) |
| ScoreUtils.RankedTotalsExactlyOnce | src/utils/helpers.py:75 | every id appears in the ranking exactly once, with the sum of its scores |
| ScoreUtils.RankedTotalsOrder | src/utils/helpers.py:75 | the ranking is by non-increasing total; equal totals keep first-occurrence order |
| ScoreUtils.MergedTotal | src/utils/helpers.py:66-72 | an id's merged total is `weight1 * sum1 + weight2 * sum2` |
| ScoreUtils.IdsOfMerge | src/utils/helpers.py:66-72 | the ids entering the merge are those of either list |
| ScoreUtils.Merged | src/utils/helpers.py:66-76 | the specification of `merge_recommendations`: the ranked totals of the first list weighted by `weight1` followed by the second weighted by `weight2` (its properties: MergeRanking, MergedTotal) |
| ScoreUtils.MergeRanking | src/utils/helpers.py:66-76 | the merge lists every id of either list once, with its weighted total, in non-increasing order |
| ScoreUtils.MergeRecommendations | src/utils/helpers.py:66-76 | the two dictionary loops and the sort return the merged ranking with all of the above |
| Embeddings.GenerateEmbedding | src/services/embeddings_service.py:41-52 | a blank text gives the zero vector of the model's dimension; any other text is encoded unchanged |
| Embeddings.JoinBlankIff | src/services/embeddings_service.py:112-114 | the space-joined profile text is blank exactly when every part is blank |
| Embeddings.JoinKeepsParts | src/services/embeddings_service.py:112 | every part occurs in the joined text |
| Embeddings.JoinWithSpaces | src/services/embeddings_service.py:112 | `" ".join(parts)`: the parts separated by single spaces (its properties: JoinBlankIff, JoinKeepsParts) |
| Embeddings.UserTextParts | src/services/embeddings_service.py:102-109 | at most three parts, none empty (only truthy fields are used) |
| Embeddings.UserText | src/services/embeddings_service.py:102-115 | the joined truthy fields, or "user profile" when that is blank (its properties: UserTextNotBlank, UserTextFallback) |
| Embeddings.UserTextNotBlank | src/services/embeddings_service.py:114-115 | the profile text is never blank, so a profile is never embedded as zeros |
| Embeddings.UserTextFallback | src/services/embeddings_service.py:102-115 | "user profile" is used exactly when every truthy field is blank; otherwise the text holds each field |
| Embeddings.GenerateUserEmbedding | src/services/embeddings_service.py:102-117 | building the parts step by step embeds the profile text, and the model is always called |
| Embeddings.PostText | src/services/embeddings_service.py:129-132 | a missing or blank post becomes "post content"; otherwise the post text is kept; never blank |
| Embeddings.GeneratePostEmbedding | src/services/embeddings_service.py:129-134 | a post is always encoded by the model, never turned into zeros |
| Embeddings.PrepareBatch | src/services/embeddings_service.py:68 | blank texts become " ", others are kept, same length |
| Embeddings.PrepareBatchProperties | src/services/embeddings_service.py:68 | the model never receives an empty string; preparing twice equals preparing once |
| Embeddings.GenerateEmbeddingsBatch | src/services/embeddings_service.py:64-71 | an empty list gives no vectors; otherwise one batch call on the prepared texts |
| Recommendation.Top | src/services/recommendation_service.py:61-62 | the first `min(n, len)` hits, ids and scores aligned |
| Recommendation.ExclusionList | src/services/recommendation_service.py:48-51 | the user first, plus exactly the followed users when asked |
| Recommendation.UserCandidates | src/services/recommendation_service.py:45-58 | the index hits for the profile embedding, asking for `2 * limit` users outside the exclusion list |
| Recommendation.SimilarUsers | src/services/recommendation_service.py:39-64 | ids and scores aligned, at most `limit` of them |
| Recommendation.SimilarUsersShape | src/services/recommendation_service.py:39-64 | an unknown user gets nothing; a known one gets the first `limit` of the `2 * limit` candidates in index order |
| Recommendation.SimilarUsersExcluded | src/services/recommendation_service.py:48-62 | with an honouring index, the user and (when asked) the followed users are never recommended |
| Recommendation.RecommendUsers | src/services/recommendation_service.py:39-64 | the method returns `SimilarUsers`, at most `limit` aligned ids and scores |
| Recommendation.RecommendPosts | src/services/recommendation_service.py:82-105 | an unknown user gets nothing; ids and scores aligned |
| Recommendation.RecommendPostsExcludesLiked | src/services/recommendation_service.py:88-98 | with an honouring index no liked post is recommended and at most `limit` come back |
| Recommendation.SearchPostsSemantic | src/services/recommendation_service.py:175-187 | the hits of the query's embedding (zero for a blank query) among all posts, in index order |
| Recommendation.SearchUsersSemantic | src/services/recommendation_service.py:205-217 | the same over users |
| Recommendation.SearchWithinLimit | src/services/recommendation_service.py:175-217 | with an honouring index neither search exceeds `limit` |
| Recommendation.Neighbourhood | src/services/recommendation_service.py:124-128 | at most ten neighbours, ids and scores aligned |
| Recommendation.LikeContributionsSum | src/services/recommendation_service.py:142-145 | one neighbour adds its score once per time it liked the post |
| Recommendation.ContributionsTotal | src/services/recommendation_service.py:137-145 | a post's accumulated total is the sum over neighbours of likes times similarity |
| Recommendation.ContributionsFromNeighbours | src/services/recommendation_service.py:137-145 | the posts that receive a score are exactly those some neighbour liked |
| Recommendation.AddToScore | src/services/recommendation_service.py:143-145 | `if k not in d: d[k] = 0; d[k] += v` creates or updates one entry and leaves the rest unchanged |
| Recommendation.AddLikes | src/services/recommendation_service.py:142-145 | the inner loop extends the tallies by one neighbour's likes |
| Recommendation.TallyNeighbourLikes | src/services/recommendation_service.py:137-145 | the outer loop's dictionary tallies every neighbour's contributions |
| Recommendation.CollaborativeShape | src/services/recommendation_service.py:124-157 | no neighbours give nothing; at most `limit` distinct posts, aligned, scores non-increasing |
| Recommendation.CollaborativeScores | src/services/recommendation_service.py:124-157 | each post was liked by a neighbour and scores its neighbour total; a liked post is missing only when `limit` posts came back |
| Recommendation.CollaborativeKeepsHighest | src/services/recommendation_service.py:148-152 | the cut to `limit` keeps the highest totals: a neighbour-liked post that was left out totals no more than any kept post |
| Recommendation.CollaborativePosts | src/services/recommendation_service.py:124-157 | the specification of `recommend_posts_collaborative`: nothing without neighbours, otherwise the first `limit` of the ranked neighbour totals (its properties: CollaborativeShape, CollaborativeScores, CollaborativeKeepsHighest) |
| Recommendation.RecommendPostsCollaborative | src/services/recommendation_service.py:124-157 | the loops and the sort return `CollaborativePosts` |
| ModerationPolicy.NoneBlockingSnoc | src/services/moderation_service_simple.py:172-184 | appending a reason keeps the content safe exactly when the reason does not block |
| ModerationPolicy.ToxicityReasons | src/services/moderation_service.py:152-167 | the reasons the toxicity branch appends, in branch order, the identity rule only when selected (its properties: ToxicityReasonsSpec, ToxicityReasonsInOrder, ToxicityBlocks) |
| ModerationPolicy.SpamReasons | src/services/moderation_service_simple.py:191-197 | the reason the spam branch appends (its properties: SpamReasonsSpec) |
| ModerationPolicy.Verdict | src/services/moderation_service.py:137-182 | the specification of `moderate_content` on the outputs of the enabled checks: toxicity reasons then spam reasons, safe exactly when none blocks (its properties: VerdictUnsafeIff, VerdictShape, VerdictAllDisabled) |
| ModerationPolicy.ToxicityReasonsSpec | src/services/moderation_service.py:152-167 | high toxicity iff score >= 0.7; moderate iff 0.5 <= score < 0.7; severe, threat, identity attack iff their score > 0.5 (identity only in the model-backed service) |
| ModerationPolicy.ToxicityReasonsInOrder | src/services/moderation_service.py:152-167 | toxicity reasons are distinct, in evaluation order, and all rank before the spam reasons |
| ModerationPolicy.ToxicityBlocks | src/services/moderation_service.py:152-167 | the toxicity branch clears `is_safe` exactly when a blocking threshold is crossed |
| ModerationPolicy.SpamReasonsSpec | src/services/moderation_service_simple.py:191-197 | spam iff score > 0.6; possible spam iff 0.4 < score <= 0.6; nothing iff score <= 0.4 |
| ModerationPolicy.FlagToxicity | src/services/moderation_service.py:146-167 | the toxicity branch records score and categories, appends exactly its reasons and keeps `is_safe` equal to "no blocking reason" |
| ModerationPolicy.FlagSpam | src/services/moderation_service_simple.py:187-197 | the spam branch records the score, appends its reason, attaches the patterns above 0.4, and keeps `is_safe` in step |
| ModerationPolicy.VerdictUnsafeIff | src/services/moderation_service.py:137-182 | unsafe iff an enabled check crossed a blocking threshold (toxicity >= 0.7, severe, threat or identity > 0.5, spam > 0.6) |
| ModerationPolicy.VerdictShape | src/services/moderation_service.py:137-182 | reasons distinct and in evaluation order; a disabled check keeps its defaults; patterns present iff spam score > 0.4 |
| ModerationPolicy.VerdictAllDisabled | src/services/moderation_service_simple.py:157-163 | with both checks off the result is the initial safe record |
| ModerationPolicy.IdentityRuleOnlyAddsIdentityAttack | src/services/moderation_service.py:165-167 | with identity score <= 0.5 the extra rule changes nothing |
| SpamCheck.CollectKeywords | src/services/moderation_service_simple.py:111-113 | the keyword loop returns the keywords occurring in the lower-cased text, in list order |
| SpamCheck.MostlyCapitals | src/services/moderation_service_simple.py:121-124 | more than ten characters and more than half of them capitals, stated without division |
| SpamCheck.SpamPatterns | src/services/moderation_service_simple.py:110-133 | the matched keywords followed by the structural patterns that fire; at most sixteen (its properties: SpamPatternsSpec) |
| SpamCheck.SpamResult | src/services/moderation_service_simple.py:104-138 | the specification of `check_spam`: (0.0, []) for a blank text, otherwise the score and the patterns |
| SpamCheck.CheckSpam | src/services/moderation_service_simple.py:104-138 | blank text gives (0.0, []); otherwise the patterns and 0.2 per pattern capped at 1.0; score in [0, 1] |
| SpamCheck.SpamPatternsSpec | src/services/moderation_service_simple.py:110-133 | the patterns are exactly the named patterns that fire, in the fixed keyword-then-structural order, each at most once |
| SpamCheck.SpamScoreSpec | src/services/moderation_service_simple.py:136 | the score is `n / 5` up to five patterns and 1.0 from then on, always in [0, 1] |
| SpamCheck.CorrectedSpamVerdict | src/services/moderation_service_simple.py:191-197 | with exact scores, four or more patterns are spam, three a possible spam, fewer nothing |
| SpamCheck.AsWrittenSkipsPossibleSpam | src/services/moderation_service_simple.py:191-197 | in binary64, `2 * 0.2` equals the stored 0.4 and `3 * 0.2` exceeds the stored 0.6, so three patterns are already spam and possible spam never occurs |
| RuleModeration.CountPresentPositive | src/services/moderation_service_simple.py:62-63 | a word count is at least one exactly when some word of the list occurs |
| RuleModeration.CountPresent | src/services/moderation_service_simple.py:62-63 | how many words of a list occur in the lower-cased text, at most the list length |
| RuleModeration.AnyPresent | src/services/moderation_service_simple.py:71 | some word of a list occurs in the lower-cased text |
| Strings.HasRepeatedRun | src/services/moderation_service_simple.py:132 | `re.search(r"(.)\1{4,}", text)`: some character other than a newline occurs five times in a row |
| RuleModeration.Max5 | src/services/moderation_service_simple.py:83 | `max` of five scores is one of them and no smaller than any |
| RuleModeration.CheckToxicity | src/services/moderation_service_simple.py:39-92 | blank text is clean; all scores in [0, 1]; overall toxicity dominates every category; no identity attack |
| RuleModeration.RuleVerdictTriggers | src/services/moderation_service_simple.py:59-92 | an insult or threat word or three toxic words make the text highly toxic; a threat word is a threat; two severe words are severe; one severe or obscene word is at least a warning |
| RuleModeration.RuleVerdictClean | src/services/moderation_service_simple.py:59-92 | nothing is flagged exactly when at most one toxic word, no severe word and no insult, threat or obscene word occurs |
| RuleModeration.ModerateContent | src/services/moderation_service_simple.py:140-199 | the step-by-step result equals the verdict on the enabled checks without the identity rule |
| ModelModeration.CheckToxicity | src/services/moderation_service.py:39-72 | blank text is clean without asking the classifier; a classifier failure is clean; otherwise its scores are returned |
| ModelModeration.ClassifierFailureLooksClean | src/services/moderation_service.py:63-72 | a failing classifier raises no toxicity reason and, spam off, yields a safe all-zero result |
| ModelModeration.IdentityAttackBlocks | src/services/moderation_service.py:165-167 | an identity score above 0.5 adds `identity_attack` and makes the content unsafe, which the rule-based policy would not |
| ModelModeration.AgreesWithRuleService | src/services/moderation_service.py:146-167 | a classifier returning the rule-based scores gives the rule-based verdict |
| ModelModeration.ModerateContent | src/services/moderation_service.py:120-182 | the step-by-step result equals the verdict on the enabled checks with the identity rule |

## Left out

- `compute_similarity` (cosine similarity with numpy) is not modelled. No operation of the core calls it, and it is floating-point vector arithmetic.
- The sentence-transformer model, the Detoxify classifier, the vector index and the document store are parameters:
  - their internals, I/O, device and thread settings are not modelled;
  - database errors and unparsable ids are modelled as a missing key;
  - `src/services/vector_db_service.py` and `src/services/mongo_service.py` are not part of this model beyond that.
- Vector index upserts and collection setup are not modelled; only the two searches are used.
- Recommendation.SimilarUsersExcluded, Recommendation.RecommendPostsExcludesLiked and Recommendation.SearchWithinLimit assume that the index honours its limit and its must-not filter (`Honours`).
- Python exceptions are not modelled on two paths:
  - A stored `"post": null` makes `post_text.strip()` raise (`src/services/embeddings_service.py:129-131`). Embeddings.PostText cannot represent a null post: a `PostDocument` either lacks the key or holds a string, and a missing key gets the fallback text.
  - An exception raised by the embedding model or the vector index propagates out of the recommendation and search operations. The model's collaborators always return a value.
- The URL regular expression of `check_spam` is not modelled. The number of its matches is a parameter.
- Strings are ASCII only:
  - `isspace`, `lower` and `isupper` are not modelled for other characters;
  - `len` counts characters.
- Python floats are exact reals:
  - The toxicity products `n * 0.3` and `n * 0.5` never land near a threshold, so the decisions agree with binary64. Only the reported value can differ in its last digit (`3 * 0.3`).
  - The spam thresholds do differ; see Findings.
  - numpy's division in `normalize_scores` is exact division.
- SpamCheck.MostlyCapitals states `caps / len > 0.5` as `2 * caps > len`. This agrees with binary64 division for texts shorter than 2^51 characters.
- `check_spam` appears in both moderation services in identical form (`src/services/moderation_service.py:74-118`). It is modelled once, as SpamCheck.CheckSpam.
- ModelModeration.CheckToxicity assumes the classifier reports exactly the six categories. Extra keys in Detoxify's output and the `.get(..., 0)` defaults for missing ones are not modelled.
- The API's request limits are preconditions: users 1..50; posts and searches 1..100. The collaborative recommender calls `recommend_users` with limit 10. The `page` field is never used by the services.
- HTTP routes, configuration, start-up, scripts, tests and printing or logging are not part of this model.

## Findings

| source | as written | input that shows it | evidently intended | confidence | as-written member | corrected member |
|---|---|---|---|---|---|---|
| src/services/moderation_service_simple.py:136 and 191-197 (the same in src/services/moderation_service.py:116 and 174-180) | `spam_score = min(1.0, n * 0.2)` in binary64 is compared with `> 0.6` and `> 0.4`. `3 * 0.2` is 0.6000000000000001, above the stored 0.6, and `2 * 0.2` equals the stored 0.4, so `possible_spam` can never be reported | a non-blank text matching exactly three patterns, e.g. `click here!!!!!` (keyword, four or more `!`, a run of five equal characters) is flagged `spam` and made unsafe | a score of 0.6 (three patterns) is a possible spam and leaves the content safe; spam needs four patterns | not executed | SpamCheck.AsWrittenSkipsPossibleSpam | SpamCheck.CorrectedSpamVerdict |
