/**
 * The recommendation service: profile-similarity user recommendations,
 * content-based and collaborative post recommendations, and semantic search.
 *
 * Its collaborators are parameters (`Services`): the embedder, the two
 * nearest-neighbour searches of the vector index, and a snapshot of the
 * record store. An index search is `(embedding, limit, excluded ids) -> hits`;
 * nothing is assumed of it, and the properties that rely on the index
 * honouring its limit and its must-not filter say so with `Honours`.
 */
module Recommendation {
  import opened Common
  import opened Embeddings
  import opened ScoreUtils

  /** One search result: the id from the point's payload and its similarity. */
  datatype Hit = Hit(id: string, score: real)

  /** A nearest-neighbour search over one collection. */
  type IndexSearch = (seq<real>, nat, seq<string>) -> seq<Hit>

  /** The records the service reads. A key that is missing stands for every
      way the lookup returns nothing, including a swallowed database error. */
  datatype RecordStore = RecordStore(
    users: map<string, UserProfile>,
    following: map<string, seq<string>>,
    likedPosts: map<string, seq<string>>)

  datatype Services = Services(
    embedder: Embedder,
    searchUsers: IndexSearch,
    searchPosts: IndexSearch,
    store: RecordStore)

  /** The `(ids, scores)` pair every operation returns. */
  datatype Ranking = Ranking(ids: seq<string>, scores: seq<real>)

  /** The index honoured a request: no more hits than asked for, none excluded. */
  predicate Honours(hits: seq<Hit>, limit: nat, exclude: seq<string>) {
    |hits| <= limit && forall i :: 0 <= i < |hits| ==> hits[i].id !in exclude
  }

  // ---------------------------------------------------------------- record store

  /** `get_user_by_id`: the profile, or nothing. */
  function GetUserById(store: RecordStore, userId: string): Option<UserProfile> {
    if userId in store.users then Some(store.users[userId]) else None
  }

  /** `get_user_following`: the followed ids, or `[]`. */
  function GetUserFollowing(store: RecordStore, userId: string): seq<string> {
    if userId in store.following then store.following[userId] else []
  }

  /** `get_user_interactions(user_id).get("liked_posts", [])`. */
  function GetLikedPosts(store: RecordStore, userId: string): seq<string> {
    if userId in store.likedPosts then store.likedPosts[userId] else []
  }

  // ---------------------------------------------------------------- shared shapes

  /** `[h.id for h in hits[:n]]` and `[h.score for h in hits[:n]]`. */
  function Top(hits: seq<Hit>, n: nat): (r: Ranking)
    ensures |r.ids| == |r.scores| == MinNat(n, |hits|)
    ensures forall i :: 0 <= i < |r.ids| ==> r.ids[i] == hits[i].id && r.scores[i] == hits[i].score
  {
    var k := MinNat(n, |hits|);
    Ranking(seq(k, i requires 0 <= i < k => hits[i].id), seq(k, i requires 0 <= i < k => hits[i].score))
  }

  /** Every hit, in index order. */
  function AllHits(hits: seq<Hit>): (r: Ranking)
    ensures |r.ids| == |r.scores| == |hits|
    ensures forall i :: 0 <= i < |hits| ==> r.ids[i] == hits[i].id && r.scores[i] == hits[i].score
  {
    Top(hits, |hits|)
  }

  /** A ranking taken from honoured hits has at most `limit` entries and no excluded id. */
  lemma TopOfHonoured(hits: seq<Hit>, n: nat, limit: nat, exclude: seq<string>)
    requires Honours(hits, limit, exclude)
    ensures |Top(hits, n).ids| <= limit
    ensures forall x :: x in Top(hits, n).ids ==> x !in exclude
  {
  }

  // ---------------------------------------------------------------- recommend_users

  /** The ids kept out of a user's recommendations: always the user, and the
      users they follow when asked to. */
  function ExclusionList(store: RecordStore, userId: string, excludeFollowing: bool): (ex: seq<string>)
    ensures |ex| > 0 && ex[0] == userId
    ensures excludeFollowing ==> forall f :: f in GetUserFollowing(store, userId) ==> f in ex
    ensures forall x :: x in ex ==> x == userId || (excludeFollowing && x in GetUserFollowing(store, userId))
  {
    [userId] + (if excludeFollowing then GetUserFollowing(store, userId) else [])
  }

  /** The embedding of a stored profile. */
  function ProfileEmbedding(svc: Services, user: UserProfile): seq<real> {
    GenerateEmbedding(svc.embedder, UserText(user))
  }

  /** The hits `recommend_users` asks the index for: `2 * limit` neighbours of
      the user's profile outside the exclusion list. */
  function UserCandidates(svc: Services, userId: string, limit: nat, excludeFollowing: bool): seq<Hit>
    requires userId in svc.store.users
  {
    svc.searchUsers(ProfileEmbedding(svc, svc.store.users[userId]), 2 * limit,
                    ExclusionList(svc.store, userId, excludeFollowing))
  }

  /** What `recommend_users` returns. */
  function SimilarUsers(svc: Services, userId: string, limit: nat, excludeFollowing: bool): (r: Ranking)
    ensures |r.ids| == |r.scores| <= limit
  {
    if userId !in svc.store.users then Ranking([], [])
    else Top(UserCandidates(svc, userId, limit, excludeFollowing), limit)
  }

  /** An unknown user gets nothing; a known one gets the first `limit` candidates
      in index order, ids and scores aligned. */
  lemma SimilarUsersShape(svc: Services, userId: string, limit: nat, excludeFollowing: bool)
    ensures userId !in svc.store.users ==> SimilarUsers(svc, userId, limit, excludeFollowing) == Ranking([], [])
    ensures userId in svc.store.users ==>
      var hits := UserCandidates(svc, userId, limit, excludeFollowing);
      var r := SimilarUsers(svc, userId, limit, excludeFollowing);
      && |r.ids| == |r.scores| == MinNat(limit, |hits|)
      && forall i :: 0 <= i < |r.ids| ==> r.ids[i] == hits[i].id && r.scores[i] == hits[i].score
  {
  }

  /** When the index honours the request, the user is never recommended to
      themselves, nor, when asked, anyone they follow; and no more than `limit`
      users come back. */
  lemma SimilarUsersExcluded(svc: Services, userId: string, limit: nat, excludeFollowing: bool)
    requires userId in svc.store.users
    requires Honours(UserCandidates(svc, userId, limit, excludeFollowing), 2 * limit,
                     ExclusionList(svc.store, userId, excludeFollowing))
    ensures userId !in SimilarUsers(svc, userId, limit, excludeFollowing).ids
    ensures excludeFollowing ==>
      forall f :: f in GetUserFollowing(svc.store, userId) ==> f !in SimilarUsers(svc, userId, limit, excludeFollowing).ids
    ensures |SimilarUsers(svc, userId, limit, excludeFollowing).ids| <= limit
  {
    TopOfHonoured(UserCandidates(svc, userId, limit, excludeFollowing), limit, 2 * limit,
                  ExclusionList(svc.store, userId, excludeFollowing));
  }

  /** `recommend_users`: look the user up, embed the profile, build the
      exclusion list in place, over-fetch `2 * limit` and keep the first `limit`. */
  method RecommendUsers(svc: Services, userId: string, limit: nat, excludeFollowing: bool)
    returns (userIds: seq<string>, scores: seq<real>)
    requires 1 <= limit <= 50
    ensures Ranking(userIds, scores) == SimilarUsers(svc, userId, limit, excludeFollowing)
    ensures |userIds| == |scores| <= limit
  {
    var user := GetUserById(svc.store, userId);
    if user.None? {
      return [], [];
    }
    var userEmbedding := GenerateUserEmbedding(svc.embedder, user.value);
    var excludeIds := [userId];
    if excludeFollowing {
      var following := GetUserFollowing(svc.store, userId);
      excludeIds := excludeIds + following;
    }
    assert excludeIds == ExclusionList(svc.store, userId, excludeFollowing);
    var similarUsers := svc.searchUsers(userEmbedding, limit * 2, excludeIds);
    assert similarUsers == UserCandidates(svc, userId, limit, excludeFollowing);
    var top := Top(similarUsers, limit);
    userIds, scores := top.ids, top.scores;
  }

  // ---------------------------------------------------------------- recommend_posts

  /** `recommend_posts`: the index's neighbours of the user's profile among
      the posts the user has not liked, `limit` of them, in index order. */
  function RecommendPosts(svc: Services, userId: string, limit: nat): (r: Ranking)
    requires 1 <= limit <= 100
    ensures userId !in svc.store.users ==> r == Ranking([], [])
    ensures |r.ids| == |r.scores|
    ensures userId in svc.store.users ==>
      var hits := svc.searchPosts(ProfileEmbedding(svc, svc.store.users[userId]), limit, GetLikedPosts(svc.store, userId));
      |r.ids| == |hits| &&
      forall i :: 0 <= i < |hits| ==> r.ids[i] == hits[i].id && r.scores[i] == hits[i].score
  {
    if userId !in svc.store.users then Ranking([], [])
    else
      var liked := GetLikedPosts(svc.store, userId);
      AllHits(svc.searchPosts(ProfileEmbedding(svc, svc.store.users[userId]), limit, liked))
  }

  /** With an honouring index, no recommended post is one the user already
      liked, and at most `limit` come back, exactly as the index ranked them. */
  lemma RecommendPostsExcludesLiked(svc: Services, userId: string, limit: nat)
    requires 1 <= limit <= 100
    requires userId in svc.store.users
    requires Honours(svc.searchPosts(ProfileEmbedding(svc, svc.store.users[userId]), limit,
                                     GetLikedPosts(svc.store, userId)),
                     limit, GetLikedPosts(svc.store, userId))
    ensures |RecommendPosts(svc, userId, limit).ids| <= limit
    ensures forall p :: p in RecommendPosts(svc, userId, limit).ids ==> p !in GetLikedPosts(svc.store, userId)
  {
    var hits := svc.searchPosts(ProfileEmbedding(svc, svc.store.users[userId]), limit, GetLikedPosts(svc.store, userId));
    TopOfHonoured(hits, |hits|, limit, GetLikedPosts(svc.store, userId));
  }

  // ---------------------------------------------------------------- semantic search

  /** `search_posts_semantic`: the query's embedding (zero for a blank query)
      searched among all posts. */
  function SearchPostsSemantic(svc: Services, query: string, limit: nat): (r: Ranking)
    requires 1 <= limit <= 100
    ensures var hits := svc.searchPosts(GenerateEmbedding(svc.embedder, query), limit, []);
      |r.ids| == |r.scores| == |hits| &&
      forall i :: 0 <= i < |hits| ==> r.ids[i] == hits[i].id && r.scores[i] == hits[i].score
  {
    AllHits(svc.searchPosts(GenerateEmbedding(svc.embedder, query), limit, []))
  }

  /** `search_users_semantic`: the same over the user collection. */
  function SearchUsersSemantic(svc: Services, query: string, limit: nat): (r: Ranking)
    requires 1 <= limit <= 100
    ensures var hits := svc.searchUsers(GenerateEmbedding(svc.embedder, query), limit, []);
      |r.ids| == |r.scores| == |hits| &&
      forall i :: 0 <= i < |hits| ==> r.ids[i] == hits[i].id && r.scores[i] == hits[i].score
  {
    AllHits(svc.searchUsers(GenerateEmbedding(svc.embedder, query), limit, []))
  }

  /** A search never returns more than the index was asked for, when it honours the limit. */
  lemma SearchWithinLimit(svc: Services, query: string, limit: nat)
    requires 1 <= limit <= 100
    requires Honours(svc.searchPosts(GenerateEmbedding(svc.embedder, query), limit, []), limit, [])
    requires Honours(svc.searchUsers(GenerateEmbedding(svc.embedder, query), limit, []), limit, [])
    ensures |SearchPostsSemantic(svc, query, limit).ids| <= limit
    ensures |SearchUsersSemantic(svc, query, limit).ids| <= limit
  {
  }

  // ---------------------------------------------------------------- recommend_posts_collaborative

  /** `(post, score)` for every post in `liked`. */
  function LikeContributions(liked: seq<string>, score: real): (c: seq<(string, real)>)
    ensures |c| == |liked|
    ensures forall i :: 0 <= i < |liked| ==> c[i] == (liked[i], score)
  {
    seq(|liked|, i requires 0 <= i < |liked| => (liked[i], score))
  }

  /** Every `(post, neighbour score)` the nested loop adds, in loop order. */
  function Contributions(store: RecordStore, neighbours: seq<string>, scores: seq<real>): seq<(string, real)>
    requires |neighbours| == |scores|
  {
    if |neighbours| == 0 then []
    else
      var n := |neighbours| - 1;
      Contributions(store, neighbours[..n], scores[..n]) + LikeContributions(GetLikedPosts(store, neighbours[n]), scores[n])
  }

  /** The neighbourhood: ten users most like the subject, followed ones included. */
  function Neighbourhood(svc: Services, userId: string): (r: Ranking)
    ensures |r.ids| == |r.scores| <= 10
  {
    SimilarUsers(svc, userId, 10, false)
  }

  /** The posts the collaborative recommender ranks, with their totals. */
  function CollaborativeTotals(svc: Services, userId: string): seq<(string, real)> {
    var hood := Neighbourhood(svc, userId);
    RankedTotals(Contributions(svc.store, hood.ids, hood.scores))
  }

  /** What `recommend_posts_collaborative` returns. */
  function CollaborativePosts(svc: Services, userId: string, limit: nat): Ranking {
    if |Neighbourhood(svc, userId).ids| == 0 then Ranking([], [])
    else
      var ranked := CollaborativeTotals(svc, userId);
      var top := ranked[..MinNat(limit, |ranked|)];
      Ranking(Ids(top), Scores(top))
  }

  /** How many times `p` occurs in `s`. */
  function Occurrences(s: seq<string>, p: string): nat {
    if |s| == 0 then 0 else Occurrences(s[..|s| - 1], p) + (if s[|s| - 1] == p then 1 else 0)
  }

  /** `count` copies of `score` added up. */
  function Repeated(count: nat, score: real): real {
    if count == 0 then 0.0 else Repeated(count - 1, score) + score
  }

  /** Adding `count` copies of `score` is multiplying by `count`. */
  lemma {:induction false} RepeatedIsProduct(count: nat, score: real)
    ensures Repeated(count, score) == (count as real) * score
  {
    if count > 0 {
      RepeatedIsProduct(count - 1, score);
      assert ((count - 1) as real) * score + score == (count as real) * score;
    }
  }

  /** The sum over the neighbours of how often each liked `p` times its similarity. */
  function NeighbourTotal(store: RecordStore, neighbours: seq<string>, scores: seq<real>, p: string): real
    requires |neighbours| == |scores|
  {
    if |neighbours| == 0 then 0.0
    else
      var n := |neighbours| - 1;
      NeighbourTotal(store, neighbours[..n], scores[..n], p)
        + Repeated(Occurrences(GetLikedPosts(store, neighbours[n]), p), scores[n])
  }

  /** One neighbour's likes add its score once per occurrence of the post. */
  lemma {:induction false} LikeContributionsSum(liked: seq<string>, score: real, p: string)
    ensures SumFor(LikeContributions(liked, score), p) == Repeated(Occurrences(liked, p), score)
  {
    if |liked| > 0 {
      var n := |liked| - 1;
      var c := LikeContributions(liked, score);
      assert c[..n] == LikeContributions(liked[..n], score);
      LikeContributionsSum(liked[..n], score, p);
    }
  }

  /** The total the dictionary accumulates for a post is, over the neighbours,
      the number of times each liked it times that neighbour's similarity. */
  lemma {:induction false} ContributionsTotal(store: RecordStore, neighbours: seq<string>, scores: seq<real>, p: string)
    requires |neighbours| == |scores|
    ensures SumFor(Contributions(store, neighbours, scores), p) == NeighbourTotal(store, neighbours, scores, p)
  {
    if |neighbours| > 0 {
      var n := |neighbours| - 1;
      var liked := GetLikedPosts(store, neighbours[n]);
      var front := Contributions(store, neighbours[..n], scores[..n]);
      var last := LikeContributions(liked, scores[n]);
      assert Contributions(store, neighbours, scores) == front + last;
      assert SumFor(front + last, p) == SumFor(front, p) + SumFor(last, p) by {
        SumForAppend(front, last, p);
      }
      assert SumFor(front, p) == NeighbourTotal(store, neighbours[..n], scores[..n], p) by {
        ContributionsTotal(store, neighbours[..n], scores[..n], p);
      }
      assert SumFor(last, p) == Repeated(Occurrences(liked, p), scores[n]) by {
        LikeContributionsSum(liked, scores[n], p);
      }
    }
  }

  /** The posts that receive a contribution are exactly those some neighbour liked. */
  lemma {:induction false} ContributionsFromNeighbours(store: RecordStore, neighbours: seq<string>, scores: seq<real>)
    requires |neighbours| == |scores|
    ensures forall p :: p in Ids(Contributions(store, neighbours, scores)) <==>
      exists j :: 0 <= j < |neighbours| && p in GetLikedPosts(store, neighbours[j])
  {
    if |neighbours| > 0 {
      var n := |neighbours| - 1;
      var liked := GetLikedPosts(store, neighbours[n]);
      var front := Contributions(store, neighbours[..n], scores[..n]);
      ContributionsFromNeighbours(store, neighbours[..n], scores[..n]);
      assert Ids(front + LikeContributions(liked, scores[n])) == Ids(front) + liked;
      forall p ensures p in Ids(Contributions(store, neighbours, scores)) <==>
        exists j :: 0 <= j < |neighbours| && p in GetLikedPosts(store, neighbours[j])
      {
        if p in Ids(front) {
          var j :| 0 <= j < n && p in GetLikedPosts(store, neighbours[..n][j]);
          assert neighbours[..n][j] == neighbours[j];
        }
        if exists j :: 0 <= j < |neighbours| && p in GetLikedPosts(store, neighbours[j]) {
          var j :| 0 <= j < |neighbours| && p in GetLikedPosts(store, neighbours[j]);
          if j < n {
            assert neighbours[..n][j] == neighbours[j];
          }
        }
      }
    }
  }

  /** The ids and scores of a prefix are the prefixes of the ids and scores. */
  lemma PrefixColumns(ranked: seq<(string, real)>, m: nat)
    requires m <= |ranked|
    ensures Ids(ranked[..m]) == Ids(ranked)[..m]
    ensures Scores(ranked[..m]) == Scores(ranked)[..m]
  {
  }

  /** The collaborative result has at most `limit` distinct posts, ids and scores
      aligned, in non-increasing order of score. */
  lemma CollaborativeShape(svc: Services, userId: string, limit: nat)
    ensures |Neighbourhood(svc, userId).ids| == 0 ==> CollaborativePosts(svc, userId, limit) == Ranking([], [])
    ensures |CollaborativePosts(svc, userId, limit).ids| == |CollaborativePosts(svc, userId, limit).scores| <= limit
    ensures NoDuplicates(CollaborativePosts(svc, userId, limit).ids)
    ensures forall i, j :: 0 <= i < j < |CollaborativePosts(svc, userId, limit).scores| ==>
      CollaborativePosts(svc, userId, limit).scores[i] >= CollaborativePosts(svc, userId, limit).scores[j]
  {
    var hood := Neighbourhood(svc, userId);
    if |hood.ids| > 0 {
      var pairs := Contributions(svc.store, hood.ids, hood.scores);
      var ranked := CollaborativeTotals(svc, userId);
      var m := MinNat(limit, |ranked|);
      RankedTotalsExactlyOnce(pairs);
      RankedTotalsOrder(pairs);
      PrefixColumns(ranked, m);
      var r := CollaborativePosts(svc, userId, limit);
      assert r.ids == Ids(ranked)[..m];
      assert r.scores == Scores(ranked)[..m];
    }
  }

  /** Each recommended post was liked by some neighbour and scores the sum,
      over the neighbours, of the times it liked the post times its similarity;
      a post some neighbour liked is missing only when `limit` posts came back. */
  lemma CollaborativeScores(svc: Services, userId: string, limit: nat)
    ensures var hood := Neighbourhood(svc, userId);
      var r := CollaborativePosts(svc, userId, limit);
      && |r.ids| == |r.scores|
      && (forall i :: 0 <= i < |r.ids| ==> r.scores[i] == NeighbourTotal(svc.store, hood.ids, hood.scores, r.ids[i]))
      && (forall i :: 0 <= i < |r.ids| ==>
            exists j :: 0 <= j < |hood.ids| && r.ids[i] in GetLikedPosts(svc.store, hood.ids[j]))
      && (forall p, j :: 0 <= j < |hood.ids| && p in GetLikedPosts(svc.store, hood.ids[j]) && |r.ids| < limit ==>
            p in r.ids)
  {
    var hood := Neighbourhood(svc, userId);
    var r := CollaborativePosts(svc, userId, limit);
    if |hood.ids| > 0 {
      var pairs := Contributions(svc.store, hood.ids, hood.scores);
      var ranked := CollaborativeTotals(svc, userId);
      var m := MinNat(limit, |ranked|);
      RankedTotalsExactlyOnce(pairs);
      ContributionsFromNeighbours(svc.store, hood.ids, hood.scores);
      PrefixColumns(ranked, m);
      forall i | 0 <= i < |r.ids|
        ensures r.scores[i] == NeighbourTotal(svc.store, hood.ids, hood.scores, r.ids[i])
        ensures r.ids[i] in Ids(pairs)
      {
        assert r.ids[i] == ranked[i].0 && r.scores[i] == ranked[i].1;
        assert ranked[i].0 in Ids(ranked);
        ContributionsTotal(svc.store, hood.ids, hood.scores, r.ids[i]);
      }
      forall p, j | 0 <= j < |hood.ids| && p in GetLikedPosts(svc.store, hood.ids[j]) && |r.ids| < limit
        ensures p in r.ids
      {
        assert p in Ids(pairs);
        assert p in Ids(ranked);
        assert m == |ranked|;
        assert r.ids == Ids(ranked);
      }
    }
  }

  /** The cut to `limit` keeps the highest totals: a post some neighbour liked
      that was left out totals no more than any post that was kept. */
  lemma CollaborativeKeepsHighest(svc: Services, userId: string, limit: nat)
    ensures var hood := Neighbourhood(svc, userId);
      var r := CollaborativePosts(svc, userId, limit);
      forall p, j, i ::
        (0 <= j < |hood.ids| && p in GetLikedPosts(svc.store, hood.ids[j]) && p !in r.ids && 0 <= i < |r.scores|)
        ==> NeighbourTotal(svc.store, hood.ids, hood.scores, p) <= r.scores[i]
  {
    var hood := Neighbourhood(svc, userId);
    var r := CollaborativePosts(svc, userId, limit);
    if |hood.ids| > 0 {
      var pairs := Contributions(svc.store, hood.ids, hood.scores);
      var ranked := CollaborativeTotals(svc, userId);
      var m := MinNat(limit, |ranked|);
      RankedTotalsExactlyOnce(pairs);
      RankedTotalsOrder(pairs);
      ContributionsFromNeighbours(svc.store, hood.ids, hood.scores);
      PrefixColumns(ranked, m);
      forall p, j, i | 0 <= j < |hood.ids| && p in GetLikedPosts(svc.store, hood.ids[j]) && p !in r.ids
        && 0 <= i < |r.scores|
        ensures NeighbourTotal(svc.store, hood.ids, hood.scores, p) <= r.scores[i]
      {
        assert p in Ids(pairs);
        assert p in Ids(ranked);
        var k :| 0 <= k < |ranked| && Ids(ranked)[k] == p;
        assert r.ids == Ids(ranked)[..m];
        assert k >= m;
        assert r.scores[i] == ranked[i].1;
        assert ranked[i].1 >= ranked[k].1;
        ContributionsTotal(svc.store, hood.ids, hood.scores, p);
      }
    }
  }

  /** `if k not in d: d[k] = 0` followed by `d[k] += v` on a new key. */
  lemma TallyFresh(order: seq<string>, table: map<string, real>, pairs: seq<(string, real)>, k: string, v: real)
    requires Tallies(order, table, pairs) && k !in table
    ensures Tallies(order + [k], table[k := 0.0][k := table[k := 0.0][k] + v], pairs + [(k, v)])
  {
    TallyNew(order, table, pairs, k, v);
    assert table[k := 0.0][k := table[k := 0.0][k] + v] == table[k := 0.0 + v];
  }

  lemma AppendAssociates<T>(a: seq<T>, b: seq<T>, x: T)
    ensures (a + b) + [x] == a + (b + [x])
  {
  }

  lemma LikeContributionsPrefix(liked: seq<string>, j: nat, score: real)
    requires j < |liked|
    ensures LikeContributions(liked[..j + 1], score) == LikeContributions(liked[..j], score) + [(liked[j], score)]
  {
  }

  /** `if k not in d: d[k] = 0` then `d[k] += v`, on a dictionary that tallies `pairs`. */
  method AddToScore(order: seq<string>, table: map<string, real>, ghost pairs: seq<(string, real)>, k: string, v: real)
    returns (order': seq<string>, table': map<string, real>)
    requires Tallies(order, table, pairs)
    ensures order' == if k in table then order else order + [k]
    ensures k in table' && table'[k] == (if k in table then table[k] else 0.0) + v
    ensures forall j :: j != k ==> (j in table' <==> j in table) && (j in table ==> table'[j] == table[j])
    ensures Tallies(order', table', pairs + [(k, v)])
  {
    order', table' := order, table;
    if k !in table' {
      order' := order' + [k];
      table' := table'[k := 0.0];
    }
    table' := table'[k := table'[k] + v];
    if k in table {
      TallyExisting(order, table, pairs, k, v);
    } else {
      TallyFresh(order, table, pairs, k, v);
    }
  }

  /** The inner loop of `recommend_posts_collaborative`: for each liked post,
      create its entry at 0 if it is new, then add the neighbour's score. */
  method AddLikes(order: seq<string>, table: map<string, real>, ghost pairs: seq<(string, real)>,
                  likedPosts: seq<string>, userScore: real)
    returns (order': seq<string>, table': map<string, real>)
    requires Tallies(order, table, pairs)
    ensures Tallies(order', table', pairs + LikeContributions(likedPosts, userScore))
  {
    order', table' := order, table;
    ghost var done := pairs;
    assert LikeContributions(likedPosts[..0], userScore) == [];
    for j := 0 to |likedPosts|
      invariant Tallies(order', table', done)
      invariant done == pairs + LikeContributions(likedPosts[..j], userScore)
    {
      var postId := likedPosts[j];
      assert done + [(postId, userScore)] == pairs + LikeContributions(likedPosts[..j + 1], userScore) by {
        LikeContributionsPrefix(likedPosts, j, userScore);
        AppendAssociates(pairs, LikeContributions(likedPosts[..j], userScore), (postId, userScore));
      }
      order', table' := AddToScore(order', table', done, postId, userScore);
      done := done + [(postId, userScore)];
    }
    assert likedPosts[..|likedPosts|] == likedPosts;
  }

  /** The outer loop of `recommend_posts_collaborative`: every post liked by a
      neighbour gains that neighbour's similarity score. */
  method TallyNeighbourLikes(store: RecordStore, similarUserIds: seq<string>, userScores: seq<real>)
    returns (order: seq<string>, postScoreMap: map<string, real>, ghost pairs: seq<(string, real)>)
    requires |similarUserIds| == |userScores|
    ensures Tallies(order, postScoreMap, pairs)
    ensures pairs == Contributions(store, similarUserIds, userScores)
  {
    order, postScoreMap, pairs := [], map[], [];
    TalliesEmpty(pairs);
    for i := 0 to |similarUserIds|
      invariant Tallies(order, postScoreMap, pairs)
      invariant pairs == Contributions(store, similarUserIds[..i], userScores[..i])
    {
      var similarUserId, userScore := similarUserIds[i], userScores[i];
      var likedPosts := GetLikedPosts(store, similarUserId);
      order, postScoreMap := AddLikes(order, postScoreMap, pairs, likedPosts, userScore);
      pairs := pairs + LikeContributions(likedPosts, userScore);
      assert similarUserIds[..i + 1][..i] == similarUserIds[..i];
      assert userScores[..i + 1][..i] == userScores[..i];
    }
    assert similarUserIds[..|similarUserIds|] == similarUserIds;
    assert userScores[..|userScores|] == userScores;
  }

  /** `recommend_posts_collaborative`: add each neighbour's similarity to every
      post that neighbour liked, sort the posts by total, keep `limit`. */
  method RecommendPostsCollaborative(svc: Services, userId: string, limit: nat)
    returns (postIds: seq<string>, scores: seq<real>)
    requires 1 <= limit <= 100
    ensures Ranking(postIds, scores) == CollaborativePosts(svc, userId, limit)
  {
    var similarUserIds, userScores := RecommendUsers(svc, userId, 10, false);
    if |similarUserIds| == 0 {
      return [], [];
    }
    var order, postScoreMap, pairs := TallyNeighbourLikes(svc.store, similarUserIds, userScores);
    SortedItemsAreRankedTotals(order, postScoreMap, pairs);
    var sortedPosts := SortByScore(DictItems(order, postScoreMap));
    var top := sortedPosts[..MinNat(limit, |sortedPosts|)];
    postIds := Ids(top);
    scores := Scores(top);
  }
}
