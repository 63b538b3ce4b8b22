/** The recommender component: its state (catalog, preference list, liked ids, current
    recommendations) and the three handlers that change it. */
module Session {
  import opened Catalog
  import opened Preferences
  import opened Ranking

  /** The preference list after the user likes the product with the given id: the
      entries of that product's category are raised, or nothing changes when no catalog
      product has the id. */
  function PreferencesAfterLike(products: seq<Product>, prefs: seq<UserPreference>, id: int): (r: seq<UserPreference>)
    ensures |r| == |prefs|
    ensures WeightsInRange(prefs) ==> WeightsInRange(r)
  {
    match Find(products, id)
    case None => prefs
    case Some(p) => Bumped(prefs, p.category)
  }

  /** What a like does to the weight read for category d: when the liked id names a
      product of d and d has an entry, d reads its old weight raised by 0.1 and capped at 1;
      otherwise d reads as before. */
  lemma LikeWeightChange(products: seq<Product>, prefs: seq<UserPreference>, id: int, d: string)
    ensures StoredWeight(PreferencesAfterLike(products, prefs, id), d) ==
            if LikedIn(products, id, d) && HasEntry(prefs, d)
            then Min(StoredWeight(prefs, d) + LikeIncrement, MaxWeight)
            else StoredWeight(prefs, d)
  {
    match Find(products, id)
    case None =>
    case Some(p) =>
      BumpedReadBack(prefs, p.category, d);
  }

  /** What a like does to the affinity the recommender computes for category d: when the
      liked id names a product of d, d gains the raise of its stored weight (capped at 1,
      and only if d has an entry) plus the like bonus; every other category is unchanged. */
  lemma LikeAffinityChange(products: seq<Product>, prefs: seq<UserPreference>, liked: seq<int>, id: int, d: string)
    ensures ExpectedAffinity(PreferencesAfterLike(products, prefs, id), products, liked + [id], d) ==
            ExpectedAffinity(prefs, products, liked, d) +
            (if LikedIn(products, id, d)
             then (if HasEntry(prefs, d) then Min(StoredWeight(prefs, d) + LikeIncrement, MaxWeight) - StoredWeight(prefs, d) else 0.0)
                  + LikeBonus
             else 0.0)
  {
    LikeCountAppend(products, liked, id, d);
    LikeWeightChange(products, prefs, id, d);
    var n := LikeCount(products, liked, d);
    assert LikeBonus * ((n + 1) as real) == LikeBonus * (n as real) + LikeBonus;
  }

  /** With weights in [0, 1], a like never lowers any category's affinity, and raises the
      liked product's category by at least the like bonus. */
  lemma LikeNeverLowersAffinity(products: seq<Product>, prefs: seq<UserPreference>, liked: seq<int>, id: int, d: string)
    requires WeightsInRange(prefs)
    ensures ExpectedAffinity(PreferencesAfterLike(products, prefs, id), products, liked + [id], d) >=
            ExpectedAffinity(prefs, products, liked, d)
    ensures LikedIn(products, id, d) ==>
            ExpectedAffinity(PreferencesAfterLike(products, prefs, id), products, liked + [id], d) >=
            ExpectedAffinity(prefs, products, liked, d) + LikeBonus
  {
    LikeAffinityChange(products, prefs, liked, id, d);
    if LikedIn(products, id, d) && HasEntry(prefs, d) {
      var w := StoredWeight(prefs, d);
      StoredWeightInRange(prefs, d);
      assert Min(w + LikeIncrement, MaxWeight) - w >= 0.0;
    }
  }

  /** A category with an entry reads a weight from the list, so in [0, 1] when all are. */
  lemma {:induction false} StoredWeightInRange(prefs: seq<UserPreference>, c: string)
    requires WeightsInRange(prefs)
    ensures 0.0 <= StoredWeight(prefs, c) <= MaxWeight
  {
    if prefs != [] {
      var n := |prefs| - 1;
      if prefs[n].category != c {
        StoredWeightInRange(prefs[..n], c);
      }
    }
  }

  /** The component's state. The catalog never changes; the preference list and the liked
      ids change through the handlers; the recommendation list is recomputed from them. */
  class RecommendationSystem {
    const products: seq<Product>
    var userPreferences: seq<UserPreference>
    var likedProducts: seq<int>
    var recommendations: seq<ScoredProduct>

    /** The state the component is created with. */
    constructor ()
      ensures products == InitialProducts
      ensures userPreferences == InitialPreferences
      ensures likedProducts == []
      ensures recommendations == []
    {
      products := InitialProducts;
      userPreferences := InitialPreferences;
      likedProducts := [];
      recommendations := [];
    }

    /** Rebuilds the recommendation list from the current preferences and likes, with
        one noise draw per unliked product: affinities built step by step, then filter,
        score, sort and keep four. */
    method GenerateRecommendations(noise: seq<real>)
      requires |noise| == |Unliked(products, likedProducts)|
      modifies this
      ensures userPreferences == old(userPreferences) && likedProducts == old(likedProducts)
      ensures recommendations == Recommend(products, userPreferences, likedProducts, noise)
      ensures |recommendations| == MinNat(MaxRecommendations, |Unliked(products, likedProducts)|)
      ensures forall k :: 0 <= k < |recommendations| ==>
                recommendations[k].product in products && recommendations[k].product.id !in likedProducts
    {
      var categoryScores := BuildCategoryScores(userPreferences, products, likedProducts);
      recommendations := RankProducts(products, likedProducts, categoryScores, noise);
    }

    /** Records a like: the id is appended (even if already liked or unknown), and when
        it names a catalog product, that product's category is raised in the preferences. */
    method HandleLikeProduct(productId: int)
      modifies this
      ensures likedProducts == old(likedProducts) + [productId]
      ensures userPreferences == PreferencesAfterLike(products, old(userPreferences), productId)
      ensures recommendations == old(recommendations)
    {
      likedProducts := likedProducts + [productId];
      var product := Find(products, productId);
      if product.Some? {
        userPreferences := Bumped(userPreferences, product.value.category);
      }
    }

    /** Moves the slider of a category to the given weight: every entry of that category
        takes the weight as given; the likes are untouched. */
    method HandlePreferenceChange(category: string, weight: real)
      modifies this
      ensures userPreferences == WithWeight(old(userPreferences), category, weight)
      ensures likedProducts == old(likedProducts) && recommendations == old(recommendations)
    {
      userPreferences := WithWeight(userPreferences, category, weight);
    }
  }

  /** The second entry of a catalog is found by its id when the first entry has another. */
  lemma FindSecond(products: seq<Product>, id: int)
    requires |products| >= 2 && products[0].id != id && products[1].id == id
    ensures Find(products, id) == Some(products[1])
  {
    assert FindIndex(products[1..], id) == 0;
  }

  /** Liking the id of the second entry alone filters out exactly that entry. */
  lemma UnlikedSecond(products: seq<Product>, id: int)
    requires |products| >= 2 && products[0].id != id && products[1].id == id
    requires forall i :: 2 <= i < |products| ==> products[i].id != id
    ensures Unliked(products, [id]) == [products[0]] + products[2..]
  {
    assert products[1..][1..] == products[2..];
    NothingLikedKeepsAll(products[2..], [id]);
  }

  /** In the initial catalog, id 2 is the yoga mat, and filtering out id 2 leaves the
      other seven products. */
  lemma YogaMatFacts()
    ensures Find(InitialProducts, 2) == Some(InitialProducts[1])
    ensures InitialProducts[1].category == "Fitness"
    ensures |Unliked(InitialProducts, [2])| == 7
  {
    InitialIds();
    FindSecond(InitialProducts, 2);
    UnlikedSecond(InitialProducts, 2);
  }

  /** A fresh component where the user likes the yoga mat and the list is then rebuilt:
      Fitness reads 0.5, the mat is not recommended, and four products are. */
  method LikeYogaMatScenario(noise: seq<real>) returns (fitness: real, recommended: seq<ScoredProduct>)
    requires |noise| == 7
    ensures fitness == 0.5
    ensures |recommended| == 4
    ensures forall k :: 0 <= k < |recommended| ==> recommended[k].product.id != 2
  {
    var system := new RecommendationSystem();
    YogaMatFacts();
    system.HandleLikeProduct(2);
    assert system.likedProducts == [2];
    system.GenerateRecommendations(noise);
    InitialFitnessLike();
    fitness := StoredWeight(system.userPreferences, "Fitness");
    recommended := system.recommendations;
  }
}
