/** The user's preference list: how the recommender reads a category's weight from it,
    and the two ways the component rewrites it (a like, and a slider edit). */
module Preferences {
  import opened Catalog

  /** Raise applied to a category's stored weight when one of its products is liked. */
  const LikeIncrement: real := 0.1
  /** Cap applied after that raise. */
  const MaxWeight: real := 1.0

  function Min(a: real, b: real): (m: real)
    ensures m <= a && m <= b && (m == a || m == b)
  {
    if a <= b then a else b
  }

  predicate HasEntry(prefs: seq<UserPreference>, c: string) {
    exists i :: 0 <= i < |prefs| && prefs[i].category == c
  }

  /** Entry i is the last one in the list whose category is c. */
  predicate IsLastEntry(prefs: seq<UserPreference>, c: string, i: int) {
    0 <= i < |prefs| && prefs[i].category == c &&
    forall j :: i < j < |prefs| ==> prefs[j].category != c
  }

  predicate WeightsInRange(prefs: seq<UserPreference>) {
    forall i :: 0 <= i < |prefs| ==> 0.0 <= prefs[i].weight <= MaxWeight
  }

  /** The weight the recommender reads for category c: the dictionary the list folds into
      lets a later entry overwrite an earlier one, so this is read from the back. */
  function StoredWeight(prefs: seq<UserPreference>, c: string): real {
    if prefs == [] then 0.0
    else
      var n := |prefs| - 1;
      if prefs[n].category == c then prefs[n].weight else StoredWeight(prefs[..n], c)
  }

  /** The weight read for c is that of the LAST entry for c; a category without an entry
      reads as 0. */
  lemma {:induction false} StoredWeightIsLastEntry(prefs: seq<UserPreference>, c: string)
    ensures !HasEntry(prefs, c) ==> StoredWeight(prefs, c) == 0.0
    ensures forall i :: IsLastEntry(prefs, c, i) ==> StoredWeight(prefs, c) == prefs[i].weight
  {
    if prefs != [] {
      var n := |prefs| - 1;
      if prefs[n].category != c {
        StoredWeightIsLastEntry(prefs[..n], c);
        assert forall i :: IsLastEntry(prefs, c, i) ==> IsLastEntry(prefs[..n], c, i);
        if !HasEntry(prefs, c) {
          assert !HasEntry(prefs[..n], c);
        }
      }
    }
  }

  /** The preference list after liking a product of category c: every entry of that
      category is raised by LikeIncrement and capped at MaxWeight; nothing is added. */
  function Bumped(prefs: seq<UserPreference>, c: string): (r: seq<UserPreference>)
    ensures |r| == |prefs|
    ensures forall i :: 0 <= i < |r| ==> r[i].category == prefs[i].category
    ensures forall i :: 0 <= i < |r| && prefs[i].category != c ==> r[i] == prefs[i]
    ensures forall i :: 0 <= i < |r| && prefs[i].category == c ==>
              r[i].weight == Min(prefs[i].weight + LikeIncrement, MaxWeight)
    ensures forall i :: 0 <= i < |r| && prefs[i].weight <= MaxWeight ==>
              prefs[i].weight <= r[i].weight <= MaxWeight
    ensures WeightsInRange(prefs) ==> WeightsInRange(r)
  {
    seq(|prefs|, i requires 0 <= i < |prefs| =>
      if prefs[i].category == c
      then prefs[i].(weight := Min(prefs[i].weight + LikeIncrement, MaxWeight))
      else prefs[i])
  }

  /** The preference list after the slider for category c is moved to w: every entry of
      that category takes w exactly (no clamping); nothing is added. */
  function WithWeight(prefs: seq<UserPreference>, c: string, w: real): (r: seq<UserPreference>)
    ensures |r| == |prefs|
    ensures forall i :: 0 <= i < |r| ==> r[i].category == prefs[i].category
    ensures forall i :: 0 <= i < |r| && prefs[i].category != c ==> r[i] == prefs[i]
    ensures forall i :: 0 <= i < |r| && prefs[i].category == c ==> r[i].weight == w
    ensures !HasEntry(prefs, c) ==> r == prefs
  {
    seq(|prefs|, i requires 0 <= i < |prefs| =>
      if prefs[i].category == c then prefs[i].(weight := w) else prefs[i])
  }

  /** A category without an entry in the whole list has none in a prefix either; one
      with an entry only in a prefix has it there. */
  lemma EntryInPrefix(prefs: seq<UserPreference>, c: string)
    requires prefs != [] && prefs[|prefs| - 1].category != c
    ensures HasEntry(prefs, c) <==> HasEntry(prefs[..|prefs| - 1], c)
  {
    var n := |prefs| - 1;
    if HasEntry(prefs, c) {
      var i :| 0 <= i < |prefs| && prefs[i].category == c;
      assert prefs[..n][i].category == c;
    }
  }

  lemma BumpedPrefix(prefs: seq<UserPreference>, c: string)
    requires prefs != []
    ensures Bumped(prefs, c)[..|prefs| - 1] == Bumped(prefs[..|prefs| - 1], c)
  {
  }

  /** What the recommender reads after a like of a category-c product: c reads as its old
      weight raised and capped, if c has an entry; every other category reads as before. */
  lemma {:induction false} BumpedReadBack(prefs: seq<UserPreference>, c: string, d: string)
    ensures StoredWeight(Bumped(prefs, c), d) ==
            if d == c && HasEntry(prefs, c) then Min(StoredWeight(prefs, c) + LikeIncrement, MaxWeight)
            else StoredWeight(prefs, d)
  {
    if prefs != [] {
      var n := |prefs| - 1;
      var b := Bumped(prefs, c);
      BumpedPrefix(prefs, c);
      if prefs[n].category != d {
        assert StoredWeight(b, d) == StoredWeight(Bumped(prefs[..n], c), d);
        assert StoredWeight(prefs, d) == StoredWeight(prefs[..n], d);
        BumpedReadBack(prefs[..n], c, d);
        if d == c {
          EntryInPrefix(prefs, c);
        }
      } else if d == c {
        assert HasEntry(prefs, c);
        assert StoredWeight(prefs, c) == prefs[n].weight;
        assert StoredWeight(b, c) == Min(prefs[n].weight + LikeIncrement, MaxWeight);
      } else {
        assert b[n] == prefs[n];
        assert StoredWeight(b, d) == prefs[n].weight == StoredWeight(prefs, d);
      }
    } else {
      assert Bumped(prefs, c) == [];
    }
  }

  lemma WithWeightPrefix(prefs: seq<UserPreference>, c: string, w: real)
    requires prefs != []
    ensures WithWeight(prefs, c, w)[..|prefs| - 1] == WithWeight(prefs[..|prefs| - 1], c, w)
  {
  }

  /** What the recommender reads after the slider edit: c reads as w if it has an entry
      (and as 0 otherwise); every other category reads as before. */
  lemma {:induction false} WithWeightReadBack(prefs: seq<UserPreference>, c: string, w: real, d: string)
    ensures StoredWeight(WithWeight(prefs, c, w), d) ==
            if d == c && HasEntry(prefs, c) then w else StoredWeight(prefs, d)
  {
    if prefs != [] {
      var n := |prefs| - 1;
      var b := WithWeight(prefs, c, w);
      WithWeightPrefix(prefs, c, w);
      if prefs[n].category != d {
        assert StoredWeight(b, d) == StoredWeight(WithWeight(prefs[..n], c, w), d);
        assert StoredWeight(prefs, d) == StoredWeight(prefs[..n], d);
        WithWeightReadBack(prefs[..n], c, w, d);
        if d == c {
          EntryInPrefix(prefs, c);
        }
      } else if d == c {
        assert HasEntry(prefs, c);
        assert StoredWeight(b, c) == w;
      } else {
        assert b[n] == prefs[n];
        assert StoredWeight(b, d) == prefs[n].weight == StoredWeight(prefs, d);
      }
    } else {
      assert WithWeight(prefs, c, w) == [];
    }
  }

  /** Two slider edits of the same category: the second one wins. */
  lemma LastEditWins(prefs: seq<UserPreference>, c: string, w1: real, w2: real)
    ensures WithWeight(WithWeight(prefs, c, w1), c, w2) == WithWeight(prefs, c, w2)
  {
    assert forall i :: 0 <= i < |prefs| ==>
      WithWeight(WithWeight(prefs, c, w1), c, w2)[i] == WithWeight(prefs, c, w2)[i];
  }

  /** Liking a Fitness product in the initial state moves Fitness from 0.4 to 0.5. */
  lemma InitialFitnessLike()
    ensures StoredWeight(Bumped(InitialPreferences, "Fitness"), "Fitness") == 0.5
  {
    assert InitialPreferences[1].category == "Fitness";
    assert IsLastEntry(InitialPreferences, "Fitness", 1);
    StoredWeightIsLastEntry(InitialPreferences, "Fitness");
    BumpedReadBack(InitialPreferences, "Fitness", "Fitness");
  }
}
