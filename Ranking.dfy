/** The recommendation pipeline: category affinities from the preference list and the
    likes, then filter out liked products, score, sort by score and keep the top four. */
module Ranking {
  import opened Catalog
  import opened Preferences

  /** Added to a category's affinity for every liked product of that category. */
  const LikeBonus: real := 0.2
  /** Maximum length of the recommendation list. */
  const MaxRecommendations: nat := 4
  /** The random term of a score lies in [0, NoiseScale). */
  const NoiseScale: real := 0.5

  /** A product together with the score it was ranked by. */
  datatype ScoredProduct = ScoredProduct(product: Product, score: real)

  /** A category's affinity in the score dictionary; a missing key reads as 0. */
  function Affinity(scores: map<string, real>, c: string): real {
    if c in scores then scores[c] else 0.0
  }

  // ---------------------------------------------------------------------------
  // Category affinities

  /** The dictionary the preference list folds into, entry by entry, a later entry
      overwriting an earlier one of the same category. */
  function PreferenceScores(prefs: seq<UserPreference>): map<string, real> {
    if prefs == [] then map[]
    else
      var n := |prefs| - 1;
      PreferenceScores(prefs[..n])[prefs[n].category := prefs[n].weight]
  }

  /** The dictionary after each liked id, in order, that names a catalog product has
      added LikeBonus to that product's category (creating the key if needed). */
  function AddLikeBonuses(scores: map<string, real>, products: seq<Product>, liked: seq<int>): map<string, real> {
    if liked == [] then scores
    else
      var n := |liked| - 1;
      var acc := AddLikeBonuses(scores, products, liked[..n]);
      match Find(products, liked[n])
      case None => acc
      case Some(p) => acc[p.category := Affinity(acc, p.category) + LikeBonus]
  }

  /** The category affinities the pipeline ranks with. */
  function CategoryScores(prefs: seq<UserPreference>, products: seq<Product>, liked: seq<int>): map<string, real> {
    AddLikeBonuses(PreferenceScores(prefs), products, liked)
  }

  /** The liked id names a catalog product of category c. */
  predicate LikedIn(products: seq<Product>, id: int, c: string) {
    Find(products, id).Some? && Find(products, id).value.category == c
  }

  /** How many entries of the liked list (repetitions included) name a product of category c. */
  function LikeCount(products: seq<Product>, liked: seq<int>, c: string): nat {
    if liked == [] then 0
    else (if LikedIn(products, liked[0], c) then 1 else 0) + LikeCount(products, liked[1..], c)
  }

  /** Closed form of a category's affinity: its stored preference weight plus LikeBonus
      per liked product of the category, with no cap. */
  function ExpectedAffinity(prefs: seq<UserPreference>, products: seq<Product>, liked: seq<int>, c: string): real {
    StoredWeight(prefs, c) + LikeBonus * (LikeCount(products, liked, c) as real)
  }

  lemma {:induction false} LikeCountAppend(products: seq<Product>, liked: seq<int>, id: int, c: string)
    ensures LikeCount(products, liked + [id], c) ==
            LikeCount(products, liked, c) + (if LikedIn(products, id, c) then 1 else 0)
  {
    if liked == [] {
      assert liked + [id] == [id];
    } else {
      assert (liked + [id])[1..] == liked[1..] + [id];
      LikeCountAppend(products, liked[1..], id, c);
    }
  }

  lemma {:induction false} PreferenceScoresRead(prefs: seq<UserPreference>, c: string)
    ensures Affinity(PreferenceScores(prefs), c) == StoredWeight(prefs, c)
  {
    if prefs != [] {
      PreferenceScoresRead(prefs[..|prefs| - 1], c);
    }
  }

  lemma {:induction false} AddLikeBonusesRead(scores: map<string, real>, products: seq<Product>, liked: seq<int>, c: string)
    ensures Affinity(AddLikeBonuses(scores, products, liked), c) ==
            Affinity(scores, c) + LikeBonus * (LikeCount(products, liked, c) as real)
  {
    if liked != [] {
      var n := |liked| - 1;
      AddLikeBonusesRead(scores, products, liked[..n], c);
      assert liked == liked[..n] + [liked[n]];
      LikeCountAppend(products, liked[..n], liked[n], c);
    }
  }

  /** The affinity the pipeline uses for category c is the closed form above. */
  lemma CategoryScoresFormula(prefs: seq<UserPreference>, products: seq<Product>, liked: seq<int>, c: string)
    ensures Affinity(CategoryScores(prefs, products, liked), c) == ExpectedAffinity(prefs, products, liked, c)
  {
    AddLikeBonusesRead(PreferenceScores(prefs), products, liked, c);
    PreferenceScoresRead(prefs, c);
  }

  /** Builds the affinity dictionary as the component does: a fold over the preference
      list, then a pass over the liked ids. */
  method BuildCategoryScores(prefs: seq<UserPreference>, products: seq<Product>, liked: seq<int>)
    returns (scores: map<string, real>)
    ensures scores == CategoryScores(prefs, products, liked)
  {
    scores := map[];
    for i := 0 to |prefs|
      invariant scores == PreferenceScores(prefs[..i])
    {
      assert prefs[..i + 1][..i] == prefs[..i];
      scores := scores[prefs[i].category := prefs[i].weight];
    }
    assert prefs[..|prefs|] == prefs;
    ghost var base := scores;
    for i := 0 to |liked|
      invariant scores == AddLikeBonuses(base, products, liked[..i])
    {
      assert liked[..i + 1][..i] == liked[..i];
      var product := Find(products, liked[i]);
      if product.Some? {
        var c := product.value.category;
        scores := scores[c := Affinity(scores, c) + LikeBonus];
      }
    }
    assert liked[..|liked|] == liked;
  }

  // ---------------------------------------------------------------------------
  // Filter, score, sort, truncate

  /** The catalog without the products whose id is in the liked list, in catalog order. */
  function Unliked(products: seq<Product>, liked: seq<int>): (r: seq<Product>)
    ensures |r| <= |products|
  {
    if products == [] then []
    else if products[0].id in liked then Unliked(products[1..], liked)
    else [products[0]] + Unliked(products[1..], liked)
  }

  /** The filter keeps every copy of each product whose id is not liked and drops every
      copy of each product whose id is. */
  lemma {:induction false} UnlikedContents(products: seq<Product>, liked: seq<int>)
    ensures forall p :: multiset(Unliked(products, liked))[p] == if p.id in liked then 0 else multiset(products)[p]
    ensures forall p :: p in Unliked(products, liked) <==> p in products && p.id !in liked
  {
    if products != [] {
      assert products == [products[0]] + products[1..];
      UnlikedContents(products[1..], liked);
    }
  }

  /** A catalog none of whose ids is liked passes the filter whole. */
  lemma {:induction false} NothingLikedKeepsAll(products: seq<Product>, liked: seq<int>)
    requires forall i :: 0 <= i < |products| ==> products[i].id !in liked
    ensures Unliked(products, liked) == products
  {
    if products != [] {
      NothingLikedKeepsAll(products[1..], liked);
    }
  }

  /** The products of a scored list, in the same order. */
  function Products(s: seq<ScoredProduct>): (ps: seq<Product>)
    ensures |ps| == |s|
  {
    if s == [] then [] else [s[0].product] + Products(s[1..])
  }

  lemma {:induction false} ProductsAt(s: seq<ScoredProduct>, i: int)
    requires 0 <= i < |s|
    ensures Products(s)[i] == s[i].product
  {
    if i > 0 {
      ProductsAt(s[1..], i - 1);
    }
  }

  lemma {:induction false} ProductsConcat(a: seq<ScoredProduct>, b: seq<ScoredProduct>)
    ensures Products(a + b) == Products(a) + Products(b)
  {
    if a == [] {
      assert a + b == b;
    } else {
      assert (a + b)[1..] == a[1..] + b;
      ProductsConcat(a[1..], b);
    }
  }

  /** Where the head of a finds its copy in a reordering b, and what remains of b. */
  lemma MatchHead(a: seq<ScoredProduct>, b: seq<ScoredProduct>) returns (k: nat)
    requires a != [] && multiset(a) == multiset(b)
    ensures k < |b| && b[k] == a[0]
    ensures multiset(a[1..]) == multiset(b[..k] + b[k + 1..])
  {
    var x := a[0];
    assert x in multiset(b);
    k :| 0 <= k < |b| && b[k] == x;
    assert b == b[..k] + ([x] + b[k + 1..]);
    assert a == [x] + a[1..];
    assert multiset(a[1..]) == multiset(a) - multiset{x};
    assert multiset(b[..k] + b[k + 1..]) == multiset(b) - multiset{x};
  }

  lemma ProductsSplit(front: seq<ScoredProduct>, x: ScoredProduct, back: seq<ScoredProduct>)
    ensures multiset(Products(front + ([x] + back))) == multiset(Products(front + back)) + multiset{x.product}
  {
    ProductsConcat(front, [x] + back);
    ProductsConcat([x], back);
    ProductsConcat(front, back);
    assert Products([x]) == [x.product];
  }

  /** Reordering a scored list reorders its products the same way. */
  lemma {:induction false} ProductsPermutation(a: seq<ScoredProduct>, b: seq<ScoredProduct>)
    requires multiset(a) == multiset(b)
    ensures multiset(Products(a)) == multiset(Products(b))
  {
    if a != [] {
      var k := MatchHead(a, b);
      var front, back := b[..k], b[k + 1..];
      ProductsPermutation(a[1..], front + back);
      ProductsSplit(front, a[0], back);
      assert b == front + ([a[0]] + back);
      assert Products(a) == [a[0].product] + Products(a[1..]);
    }
  }

  /** Scores each product as its category's affinity times its rating plus its noise draw. */
  function ScoreAll(unliked: seq<Product>, scores: map<string, real>, noise: seq<real>): (r: seq<ScoredProduct>)
    requires |noise| == |unliked|
    ensures |r| == |unliked|
  {
    if unliked == [] then []
    else
      var p := unliked[0];
      [ScoredProduct(p, Affinity(scores, p.category) * p.rating + noise[0])] + ScoreAll(unliked[1..], scores, noise[1..])
  }

  /** Entry i of the scored list is product i, scored by its category's affinity times its
      rating plus noise draw i. */
  lemma {:induction false} ScoreAllAt(unliked: seq<Product>, scores: map<string, real>, noise: seq<real>, i: int)
    requires |noise| == |unliked| && 0 <= i < |unliked|
    ensures ScoreAll(unliked, scores, noise)[i] ==
            ScoredProduct(unliked[i], Affinity(scores, unliked[i].category) * unliked[i].rating + noise[i])
  {
    if i > 0 {
      ScoreAllAt(unliked[1..], scores, noise[1..], i - 1);
      assert unliked[1..][i - 1] == unliked[i] && noise[1..][i - 1] == noise[i];
    }
  }

  /** Scoring keeps every product, in order. */
  lemma ScoreAllProducts(unliked: seq<Product>, scores: map<string, real>, noise: seq<real>)
    requires |noise| == |unliked|
    ensures Products(ScoreAll(unliked, scores, noise)) == unliked
  {
    forall i | 0 <= i < |unliked|
      ensures Products(ScoreAll(unliked, scores, noise))[i] == unliked[i]
    {
      ScoreAllAt(unliked, scores, noise, i);
      ProductsAt(ScoreAll(unliked, scores, noise), i);
    }
  }

  predicate SortedByScore(s: seq<ScoredProduct>) {
    forall i, j :: 0 <= i < j < |s| ==> s[i].score >= s[j].score
  }

  /** Inserts x into a list sorted by non-increasing score, ahead of every entry that
      does not score higher (so entries of equal score keep their input order). */
  function Insert(x: ScoredProduct, s: seq<ScoredProduct>): (r: seq<ScoredProduct>)
    requires SortedByScore(s)
    ensures SortedByScore(r)
    ensures |r| == |s| + 1
    ensures multiset(r) == multiset(s) + multiset{x}
  {
    if s == [] then [x]
    else if x.score >= s[0].score then [x] + s
    else
      var rest := Insert(x, s[1..]);
      InsertKeepsHead(x, s, rest);
      [s[0]] + rest
  }

  lemma InsertKeepsHead(x: ScoredProduct, s: seq<ScoredProduct>, rest: seq<ScoredProduct>)
    requires SortedByScore(s) && s != [] && x.score < s[0].score
    requires SortedByScore(rest) && multiset(rest) == multiset(s[1..]) + multiset{x}
    ensures SortedByScore([s[0]] + rest)
    ensures multiset([s[0]] + rest) == multiset(s) + multiset{x}
  {
    assert s == [s[0]] + s[1..];
    forall j | 0 <= j < |rest|
      ensures s[0].score >= rest[j].score
    {
      assert rest[j] in multiset(rest);
      if rest[j] != x {
        assert rest[j] in s[1..];
      }
    }
  }

  /** Stable sort by non-increasing score (the comparator `b.score - a.score`). */
  function SortByScore(s: seq<ScoredProduct>): (r: seq<ScoredProduct>)
    ensures SortedByScore(r)
    ensures |r| == |s|
    ensures multiset(r) == multiset(s)
  {
    if s == [] then []
    else
      assert s == [s[0]] + s[1..];
      Insert(s[0], SortByScore(s[1..]))
  }

  function MinNat(a: nat, b: nat): nat {
    if a <= b then a else b
  }

  /** Filter, score, sort and truncate, given the category affinities: the list has
      exactly min(4, #unliked) entries, sorted by score, each an unliked catalog product,
      and taken together a sub-multiset of the unliked products. */
  function RankProducts(products: seq<Product>, liked: seq<int>, scores: map<string, real>, noise: seq<real>)
    : (r: seq<ScoredProduct>)
    requires |noise| == |Unliked(products, liked)|
    ensures |r| == MinNat(MaxRecommendations, |Unliked(products, liked)|)
    ensures SortedByScore(r)
    ensures forall k :: 0 <= k < |r| ==> r[k].product in products && r[k].product.id !in liked
    ensures multiset(Products(r)) <= multiset(Unliked(products, liked))
  {
    var unliked := Unliked(products, liked);
    var scored := ScoreAll(unliked, scores, noise);
    var sorted := SortByScore(scored);
    var m := MinNat(MaxRecommendations, |sorted|);
    UnlikedContents(products, liked);
    ScoreAllProducts(unliked, scores, noise);
    TruncatedProducts(unliked, scored, sorted, m);
    sorted[..m]
  }

  /** A prefix of a reordering of the scored products holds only scored products, each
      no more often than it was scored. */
  lemma TruncatedProducts(unliked: seq<Product>, scored: seq<ScoredProduct>, sorted: seq<ScoredProduct>, m: nat)
    requires Products(scored) == unliked
    requires multiset(sorted) == multiset(scored)
    requires m <= |sorted|
    ensures multiset(Products(sorted[..m])) <= multiset(unliked)
    ensures forall k :: 0 <= k < m ==> sorted[k].product in unliked
  {
    ProductsPermutation(sorted, scored);
    var r, rest := sorted[..m], sorted[m..];
    assert sorted == r + rest;
    ProductsConcat(r, rest);
    assert multiset(Products(sorted)) == multiset(Products(r)) + multiset(Products(rest));
    assert multiset(Products(r)) <= multiset(unliked);
    forall k | 0 <= k < m
      ensures sorted[k].product in unliked
    {
      ProductsAt(r, k);
      SubMultisetMember(Products(r), unliked, k);
    }
  }

  lemma SubMultisetMember(a: seq<Product>, b: seq<Product>, i: int)
    requires multiset(a) <= multiset(b) && 0 <= i < |a|
    ensures a[i] in b
  {
    assert a[i] in multiset(a);
  }

  /** The whole pipeline from the session state and one noise draw per unliked product. */
  function Recommend(products: seq<Product>, prefs: seq<UserPreference>, liked: seq<int>, noise: seq<real>)
    : (r: seq<ScoredProduct>)
    requires |noise| == |Unliked(products, liked)|
    ensures |r| == MinNat(MaxRecommendations, |Unliked(products, liked)|)
    ensures SortedByScore(r)
    ensures forall k :: 0 <= k < |r| ==> r[k].product in products && r[k].product.id !in liked
    ensures multiset(Products(r)) <= multiset(Unliked(products, liked))
  {
    RankProducts(products, liked, CategoryScores(prefs, products, liked), noise)
  }

  /** Every unliked product with its score, before sorting. */
  function Scored(products: seq<Product>, prefs: seq<UserPreference>, liked: seq<int>, noise: seq<real>)
    : seq<ScoredProduct>
    requires |noise| == |Unliked(products, liked)|
  {
    ScoreAll(Unliked(products, liked), CategoryScores(prefs, products, liked), noise)
  }

  // ---------------------------------------------------------------------------
  // Properties of the recommendation list

  /** `Math.random() * 0.5` lies in [0, 0.5). */
  predicate NoiseBand(noise: seq<real>) {
    forall i :: 0 <= i < |noise| ==> 0.0 <= noise[i] < NoiseScale
  }

  /** A product's score without the random term: its category's affinity times its rating. */
  function NoiseFreeScore(prefs: seq<UserPreference>, products: seq<Product>, liked: seq<int>, p: Product): real {
    Affinity(CategoryScores(prefs, products, liked), p.category) * p.rating
  }

  /** The noise-free score in closed form: (stored weight of the category, or 0, plus
      0.2 per liked product of the category) times the rating. */
  lemma NoiseFreeScoreFormula(prefs: seq<UserPreference>, products: seq<Product>, liked: seq<int>, p: Product)
    ensures NoiseFreeScore(prefs, products, liked, p) ==
            ExpectedAffinity(prefs, products, liked, p.category) * p.rating
  {
    CategoryScoresFormula(prefs, products, liked, p.category);
  }

  /** Entry i of the scored list is unliked product i, scored by its noise-free score
      plus noise draw i. */
  lemma ScoredAt(products: seq<Product>, prefs: seq<UserPreference>, liked: seq<int>, noise: seq<real>, i: int)
    requires |noise| == |Unliked(products, liked)| && 0 <= i < |noise|
    ensures Scored(products, prefs, liked, noise)[i] ==
            ScoredProduct(Unliked(products, liked)[i],
                          NoiseFreeScore(prefs, products, liked, Unliked(products, liked)[i]) + noise[i])
  {
    ScoreAllAt(Unliked(products, liked), CategoryScores(prefs, products, liked), noise, i);
  }

  /** Every scored product's score is its noise-free score plus a term in [0, 0.5). */
  lemma ScoredFormula(products: seq<Product>, prefs: seq<UserPreference>, liked: seq<int>, noise: seq<real>)
    requires |noise| == |Unliked(products, liked)| && NoiseBand(noise)
    ensures forall x :: x in Scored(products, prefs, liked, noise) ==>
              0.0 <= x.score - NoiseFreeScore(prefs, products, liked, x.product) < NoiseScale
  {
    var s := Scored(products, prefs, liked, noise);
    forall x | x in s
      ensures 0.0 <= x.score - NoiseFreeScore(prefs, products, liked, x.product) < NoiseScale
    {
      var i :| 0 <= i < |s| && s[i] == x;
      ScoredAt(products, prefs, liked, noise, i);
    }
  }

  /** The recommendation list is the sorted scored list cut to its first entries. */
  lemma RecommendIsPrefix(products: seq<Product>, prefs: seq<UserPreference>, liked: seq<int>, noise: seq<real>)
    requires |noise| == |Unliked(products, liked)|
    ensures var sorted := SortByScore(Scored(products, prefs, liked, noise));
            Recommend(products, prefs, liked, noise) == sorted[..|Recommend(products, prefs, liked, noise)|]
  {
  }

  /** Each recommended score is the product's noise-free score plus a term in [0, 0.5). */
  lemma RecommendedScores(products: seq<Product>, prefs: seq<UserPreference>, liked: seq<int>, noise: seq<real>)
    requires |noise| == |Unliked(products, liked)| && NoiseBand(noise)
    ensures var r := Recommend(products, prefs, liked, noise);
            forall k :: 0 <= k < |r| ==>
              0.0 <= r[k].score - NoiseFreeScore(prefs, products, liked, r[k].product) < NoiseScale
  {
    var r := Recommend(products, prefs, liked, noise);
    var s := Scored(products, prefs, liked, noise);
    var sorted := SortByScore(s);
    RecommendIsPrefix(products, prefs, liked, noise);
    ScoredFormula(products, prefs, liked, noise);
    forall k | 0 <= k < |r|
      ensures 0.0 <= r[k].score - NoiseFreeScore(prefs, products, liked, r[k].product) < NoiseScale
    {
      assert r[k] == sorted[k];
      assert sorted[k] in multiset(sorted);
      assert r[k] in s;
    }
  }

  /** A prefix of a sorted reordering of s outscores everything of s it leaves out. */
  lemma SortedPrefixIsTop(s: seq<ScoredProduct>, sorted: seq<ScoredProduct>, m: nat)
    requires SortedByScore(sorted) && multiset(sorted) == multiset(s) && m <= |sorted|
    ensures forall x, k :: 0 <= k < m && multiset(sorted[..m])[x] < multiset(s)[x] ==>
              x.score <= sorted[..m][k].score
  {
    var r, rest := sorted[..m], sorted[m..];
    assert sorted == r + rest;
    forall x: ScoredProduct, k | 0 <= k < m && multiset(r)[x] < multiset(s)[x]
      ensures x.score <= r[k].score
    {
      assert multiset(s) == multiset(r) + multiset(rest);
      assert x in rest;
      var j :| 0 <= j < |rest| && rest[j] == x;
      assert sorted[m + j] == x;
    }
  }

  /** The list keeps the best: any scored entry left out (a copy of it scored more often
      than recommended) scores no higher than any recommended entry. */
  lemma RecommendedAreTopScored(products: seq<Product>, prefs: seq<UserPreference>, liked: seq<int>, noise: seq<real>)
    requires |noise| == |Unliked(products, liked)|
    ensures var s := Scored(products, prefs, liked, noise);
            var r := Recommend(products, prefs, liked, noise);
            forall x, k :: 0 <= k < |r| && multiset(r)[x] < multiset(s)[x] ==> x.score <= r[k].score
  {
    var s := Scored(products, prefs, liked, noise);
    RecommendIsPrefix(products, prefs, liked, noise);
    SortedPrefixIsTop(s, SortByScore(s), |Recommend(products, prefs, liked, noise)|);
  }

  /** Corollary of the noise band: a recommended product whose noise-free score beats
      another recommended product's by at least 0.5 is listed before it. */
  lemma NoiseCannotReorder(products: seq<Product>, prefs: seq<UserPreference>, liked: seq<int>, noise: seq<real>, i: int, j: int)
    requires |noise| == |Unliked(products, liked)| && NoiseBand(noise)
    requires 0 <= i < |Recommend(products, prefs, liked, noise)|
    requires 0 <= j < |Recommend(products, prefs, liked, noise)|
    requires NoiseFreeScore(prefs, products, liked, Recommend(products, prefs, liked, noise)[i].product) >=
             NoiseFreeScore(prefs, products, liked, Recommend(products, prefs, liked, noise)[j].product) + NoiseScale
    ensures i < j
  {
    RecommendedScores(products, prefs, liked, noise);
  }

  /** A product the user has not liked is recommended ahead of any recommended product
      whose noise-free score it beats by at least 0.5: it is never pushed out by one. */
  lemma ClearlyBetterIsRecommended(products: seq<Product>, prefs: seq<UserPreference>, liked: seq<int>, noise: seq<real>,
                                   a: Product, k: int)
    requires |noise| == |Unliked(products, liked)| && NoiseBand(noise)
    requires a in products && a.id !in liked
    requires 0 <= k < |Recommend(products, prefs, liked, noise)|
    requires NoiseFreeScore(prefs, products, liked, a) >=
             NoiseFreeScore(prefs, products, liked, Recommend(products, prefs, liked, noise)[k].product) + NoiseScale
    ensures exists i :: 0 <= i < k && Recommend(products, prefs, liked, noise)[i].product == a
  {
    var r := Recommend(products, prefs, liked, noise);
    var s := Scored(products, prefs, liked, noise);
    var u := Unliked(products, liked);
    UnlikedContents(products, liked);
    assert a in u;
    var m :| 0 <= m < |u| && u[m] == a;
    ScoredAt(products, prefs, liked, noise, m);
    RecommendedScores(products, prefs, liked, noise);
    assert s[m].score > r[k].score;
    RecommendedAreTopScored(products, prefs, liked, noise);
    var i := OutscorerIsAhead(s, r, s[m], k);
  }

  /** In a sorted list that keeps the best of s, an entry of s that outscores entry k
      is listed before it. */
  lemma OutscorerIsAhead(s: seq<ScoredProduct>, r: seq<ScoredProduct>, x: ScoredProduct, k: int) returns (i: nat)
    requires SortedByScore(r) && 0 <= k < |r|
    requires forall y, j :: 0 <= j < |r| && multiset(r)[y] < multiset(s)[y] ==> y.score <= r[j].score
    requires x in s && x.score > r[k].score
    ensures i < k && r[i] == x
  {
    assert multiset(r)[x] >= multiset(s)[x] > 0;
    i :| 0 <= i < |r| && r[i] == x;
  }

  /** A liked id that names no catalog product leaves the filter's result unchanged. */
  lemma {:induction false} UnknownLikeKeepsUnliked(products: seq<Product>, liked: seq<int>, id: int)
    requires forall j :: 0 <= j < |products| ==> products[j].id != id
    ensures Unliked(products, liked + [id]) == Unliked(products, liked)
  {
    if products != [] {
      UnknownLikeKeepsUnliked(products[1..], liked, id);
    }
  }

  /** Liking an id that names no catalog product leaves the recommendations as they were
      (given the same noise draws). */
  lemma UnknownLikeChangesNothing(products: seq<Product>, prefs: seq<UserPreference>, liked: seq<int>, noise: seq<real>, id: int)
    requires forall j :: 0 <= j < |products| ==> products[j].id != id
    requires |noise| == |Unliked(products, liked)|
    ensures |noise| == |Unliked(products, liked + [id])|
    ensures Recommend(products, prefs, liked + [id], noise) == Recommend(products, prefs, liked, noise)
  {
    UnknownLikeKeepsUnliked(products, liked, id);
    assert (liked + [id])[..|liked|] == liked;
  }

  lemma {:induction false} UniqueCountAtMostOne(ps: seq<Product>, p: Product)
    requires UniqueIds(ps)
    ensures multiset(ps)[p] <= 1
  {
    if ps != [] {
      assert ps == [ps[0]] + ps[1..];
      UniqueCountAtMostOne(ps[1..], p);
      if ps[0] == p {
        assert p !in ps[1..];
      }
    }
  }

  /** Products drawn, each at most as often as it occurs, from a catalog with unique ids
      have unique ids. */
  lemma SubMultisetUniqueIds(ps: seq<Product>, products: seq<Product>)
    requires UniqueIds(products) && multiset(ps) <= multiset(products)
    ensures UniqueIds(ps)
  {
    forall i, j | 0 <= i < j < |ps|
      ensures ps[i].id != ps[j].id
    {
      assert ps[i] in multiset(products) && ps[j] in multiset(products);
      if ps[i] == ps[j] {
        assert ps == ps[..j] + [ps[j]] + ps[j + 1..];
        assert ps[i] in ps[..j];
        assert multiset(ps)[ps[i]] >= 2;
        UniqueCountAtMostOne(products, ps[i]);
      }
    }
  }

  /** With unique catalog ids, no product is recommended twice, and the recommended ids
      are unique. */
  lemma RecommendedIdsUnique(products: seq<Product>, prefs: seq<UserPreference>, liked: seq<int>, noise: seq<real>)
    requires UniqueIds(products)
    requires |noise| == |Unliked(products, liked)|
    ensures UniqueIds(Products(Recommend(products, prefs, liked, noise)))
  {
    UnlikedContents(products, liked);
    assert multiset(Unliked(products, liked)) <= multiset(products);
    SubMultisetUniqueIds(Products(Recommend(products, prefs, liked, noise)), products);
  }

  /** Two products, no likes: both pass the filter. */
  lemma TwoProductsUnliked(p1: Product, p2: Product)
    ensures Unliked([p1, p2], []) == [p1, p2]
  {
    NothingLikedKeepsAll([p1, p2], []);
  }

  /** Preferences {X: 1.0, Y: 0.0}, no likes: a rating-5 X product scores 5 before noise,
      a rating-5 Y product 0. */
  lemma TwoCategoryScores(p1: Product, p2: Product)
    requires p1.category == "X" && p1.rating == 5.0 && p2.category == "Y" && p2.rating == 5.0
    ensures var prefs := [UserPreference("X", 1.0), UserPreference("Y", 0.0)];
            NoiseFreeScore(prefs, [p1, p2], [], p1) == 5.0 &&
            NoiseFreeScore(prefs, [p1, p2], [], p2) == 0.0
  {
    var prefs := [UserPreference("X", 1.0), UserPreference("Y", 0.0)];
    assert prefs[..1] == [UserPreference("X", 1.0)];
    assert StoredWeight(prefs, "X") == 1.0;
    assert StoredWeight(prefs, "Y") == 0.0;
    NoiseFreeScoreFormula(prefs, [p1, p2], [], p1);
    NoiseFreeScoreFormula(prefs, [p1, p2], [], p2);
  }

  /** With the catalog [1 in X rated 5, 2 in Y rated 5], preferences {X: 1.0, Y: 0.0} and
      no likes, product 1 is always first, whatever the noise. */
  lemma FirstPlaceScenario(noise: seq<real>)
    requires |noise| == 2 && NoiseBand(noise)
    ensures var products := [Product(1, "", "X", 0.0, 5.0, "", ""), Product(2, "", "Y", 0.0, 5.0, "", "")];
            var prefs := [UserPreference("X", 1.0), UserPreference("Y", 0.0)];
            |noise| == |Unliked(products, [])| &&
            Recommend(products, prefs, [], noise)[0].product.id == 1
  {
    var p1 := Product(1, "", "X", 0.0, 5.0, "", "");
    var p2 := Product(2, "", "Y", 0.0, 5.0, "", "");
    var products := [p1, p2];
    var prefs := [UserPreference("X", 1.0), UserPreference("Y", 0.0)];
    TwoProductsUnliked(p1, p2);
    TwoCategoryScores(p1, p2);
    var r := Recommend(products, prefs, [], noise);
    assert |r| == 2;
    if r[0].product != p1 {
      assert r[0].product in products;
      ClearlyBetterIsRecommended(products, prefs, [], noise, p1, 0);
    }
  }
}
