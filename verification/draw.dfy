/** `drawRestaurant(groupId, office)`: the office's bound restaurant ids, then a random
    active restaurant among them (`$match` then `$sample: { size: 1 }`). Two copies exist:
    the one in server/utils/restaurantUtils.js also requires `isActiveInOffice`, while the
    copies the handlers call (server/routes/randomRestaurantRouter.js,
    server/routes/webhookRouter.js and index.js) do not. The random choice is the
    caller-supplied `sample`: the draw picks candidate `sample % n` of the `n` candidates in
    natural order. */
module Draw {
  import opened JsText
  import opened Schema

  /** Which copy of the draw: `Current` filters on `isActiveInOffice`, `Legacy` does not. */
  datatype Variant = Current | Legacy

  /** The binding filter of the `GroupRestaurant.find` query. */
  predicate Selects(b: Binding, groupId: string, office: string, v: Variant) {
    b.groupId == groupId && b.office == office && (v == Legacy || b.isActiveInOffice)
  }

  /** A restaurant the draw may return: active, and bound to the office by a selected binding. */
  predicate Drawable(bindings: seq<Binding>, groupId: string, office: string, v: Variant, r: Restaurant) {
    r.isActive && exists b :: b in bindings && Selects(b, groupId, office, v) && b.restaurantId == r.id
  }

  /** `groupRestaurants.map((gr) => gr.restaurantId)`. */
  function BoundIds(bindings: seq<Binding>, groupId: string, office: string, v: Variant): (ids: seq<RestaurantId>)
    ensures |ids| <= |bindings|
    ensures forall id :: id in ids <==>
      exists b :: b in bindings && Selects(b, groupId, office, v) && b.restaurantId == id
  {
    if bindings == [] then []
    else
      assert bindings == [bindings[0]] + bindings[1..];
      var rest := BoundIds(bindings[1..], groupId, office, v);
      if Selects(bindings[0], groupId, office, v) then [bindings[0].restaurantId] + rest else rest
  }

  /** `$match: { _id: { $in: ids }, isActive: true }`, in natural order. */
  function Matching(restaurants: seq<Restaurant>, ids: seq<RestaurantId>): (rs: seq<Restaurant>)
    ensures |rs| <= |restaurants|
    ensures forall r :: r in rs <==> r in restaurants && r.id in ids && r.isActive
  {
    if restaurants == [] then []
    else
      assert restaurants == [restaurants[0]] + restaurants[1..];
      var rest := Matching(restaurants[1..], ids);
      if restaurants[0].id in ids && restaurants[0].isActive then [restaurants[0]] + rest else rest
  }

  /** The restaurants `$sample` chooses from. */
  function Candidates(bindings: seq<Binding>, restaurants: seq<Restaurant>, groupId: string, office: string,
                      v: Variant): (rs: seq<Restaurant>)
    ensures forall r :: r in rs <==> r in restaurants && Drawable(bindings, groupId, office, v, r)
  {
    Matching(restaurants, BoundIds(bindings, groupId, office, v))
  }

  /** The draw: null when the office has no selected binding, or when none of the bound
      restaurants is active; otherwise a drawable restaurant. */
  function DrawRestaurant(bindings: seq<Binding>, restaurants: seq<Restaurant>, groupId: string, office: string,
                          v: Variant, sample: nat): (r: Option<Restaurant>)
    ensures r.None? <==> !exists x :: x in restaurants && Drawable(bindings, groupId, office, v, x)
    ensures r.Some? ==> r.value in restaurants && Drawable(bindings, groupId, office, v, r.value)
    ensures (forall b :: b in bindings ==> !Selects(b, groupId, office, v)) ==> r.None?
  {
    var ids := BoundIds(bindings, groupId, office, v);
    assert forall x :: x in restaurants && Drawable(bindings, groupId, office, v, x) ==> x.id in ids;
    if |ids| == 0 then None
    else
      var results := Matching(restaurants, ids);
      if |results| > 0 then
        var x := results[sample % |results|];
        assert x in results;
        Some(x)
      else None
  }

  /** The draw is candidate `sample % n`, n being the number of candidates. */
  lemma DrawPicks(bindings: seq<Binding>, restaurants: seq<Restaurant>, groupId: string, office: string,
                  v: Variant, sample: nat)
    ensures var c := Candidates(bindings, restaurants, groupId, office, v);
      DrawRestaurant(bindings, restaurants, groupId, office, v, sample)
        == if |c| == 0 then None else Some(c[sample % |c|])
  {
    var ids := BoundIds(bindings, groupId, office, v);
    if |ids| == 0 {
      MatchingNoIds(restaurants, ids);
    }
  }

  lemma {:induction false} MatchingNoIds(restaurants: seq<Restaurant>, ids: seq<RestaurantId>)
    requires ids == []
    ensures Matching(restaurants, ids) == []
  {
    if restaurants != [] {
      MatchingNoIds(restaurants[1..], ids);
    }
  }

  /** No two restaurants of `rs` share an id. */
  predicate IdsDistinct(rs: seq<Restaurant>) {
    forall i, j :: 0 <= i < j < |rs| ==> rs[i].id != rs[j].id
  }

  lemma TailIndex(restaurants: seq<Restaurant>)
    requires RestaurantIndex(restaurants) && restaurants != []
    ensures RestaurantIndex(restaurants[1..])
    ensures forall x :: x in restaurants[1..] ==> x.id != restaurants[0].id
  {
    var tail := restaurants[1..];
    forall i, j | 0 <= i < j < |tail| ensures RestaurantsApart(tail[i], tail[j]) {
      assert tail[i] == restaurants[i + 1] && tail[j] == restaurants[j + 1];
    }
    forall x | x in tail ensures x.id != restaurants[0].id {
      var k :| 0 <= k < |tail| && tail[k] == x;
      assert RestaurantsApart(restaurants[0], restaurants[k + 1]);
    }
  }

  lemma ConsDistinct(x: Restaurant, rest: seq<Restaurant>)
    requires IdsDistinct(rest) && forall y :: y in rest ==> y.id != x.id
    ensures IdsDistinct([x] + rest)
  {
    var rs := [x] + rest;
    forall i, j | 0 <= i < j < |rs| ensures rs[i].id != rs[j].id {
      assert rs[j] == rest[j - 1];
      if i > 0 {
        assert rs[i] == rest[i - 1];
      }
    }
  }

  /** With distinct ids (the collection at rest), the candidates have distinct ids. */
  lemma {:induction false} MatchingDistinct(restaurants: seq<Restaurant>, ids: seq<RestaurantId>)
    requires RestaurantIndex(restaurants)
    ensures IdsDistinct(Matching(restaurants, ids))
  {
    if restaurants != [] {
      var tail := restaurants[1..];
      TailIndex(restaurants);
      MatchingDistinct(tail, ids);
      var rest := Matching(tail, ids);
      if restaurants[0].id in ids && restaurants[0].isActive {
        ConsDistinct(restaurants[0], rest);
      }
    }
  }

  /** Every drawable restaurant is drawn by exactly one of the samples 0 .. n-1, n being the
      number of candidates: each is equally likely when `$sample` is uniform. */
  lemma {:induction false} EachCandidateOneSample(bindings: seq<Binding>, restaurants: seq<Restaurant>,
                                                  groupId: string, office: string, v: Variant, r: Restaurant)
    requires RestaurantIndex(restaurants)
    requires r in restaurants && Drawable(bindings, groupId, office, v, r)
    ensures var n := |Candidates(bindings, restaurants, groupId, office, v)|;
      exists s :: 0 <= s < n && DrawRestaurant(bindings, restaurants, groupId, office, v, s) == Some(r)
        && forall t :: 0 <= t < n && DrawRestaurant(bindings, restaurants, groupId, office, v, t) == Some(r) ==> t == s
  {
    var ids := BoundIds(bindings, groupId, office, v);
    var c := Candidates(bindings, restaurants, groupId, office, v);
    var n := |c|;
    assert r in c;
    var k :| 0 <= k < n && c[k] == r;
    MatchingDistinct(restaurants, ids);
    PickedOnce(c, k);
    DrawPicks(bindings, restaurants, groupId, office, v, k);
    forall t | 0 <= t < n && DrawRestaurant(bindings, restaurants, groupId, office, v, t) == Some(r)
      ensures t == k
    {
      DrawPicks(bindings, restaurants, groupId, office, v, t);
    }
  }

  /** Among the samples below n, only k picks the candidate at k. */
  lemma PickedOnce(c: seq<Restaurant>, k: nat)
    requires IdsDistinct(c) && k < |c|
    ensures k % |c| == k
    ensures forall t: nat :: t < |c| && c[t % |c|] == c[k] ==> t == k
  {
    forall t: nat | t < |c| ensures t % |c| == t { }
  }

  /** What the current copy may draw, the legacy copy may draw too; the converse fails. */
  lemma CurrentWithinLegacy(bindings: seq<Binding>, groupId: string, office: string, r: Restaurant)
    ensures Drawable(bindings, groupId, office, Current, r) ==> Drawable(bindings, groupId, office, Legacy, r)
  {
  }

  /** A restaurant switched off in its office (`isActiveInOffice: false` on every binding of
      the office) is never drawn by the current copy, while the copy the handlers call still
      draws it, or another drawable restaurant, whenever it is active and bound. */
  lemma LegacyDrawsPausedBinding(bindings: seq<Binding>, restaurants: seq<Restaurant>, groupId: string,
                                 office: string, r: Restaurant, s: nat)
    requires r in restaurants
    ensures (forall b :: b in bindings && b.groupId == groupId && b.office == office && b.restaurantId == r.id
               ==> !b.isActiveInOffice)
      ==> !Drawable(bindings, groupId, office, Current, r)
          && DrawRestaurant(bindings, restaurants, groupId, office, Current, s) != Some(r)
    ensures r.isActive
      && (exists b :: b in bindings && b.groupId == groupId && b.office == office && b.restaurantId == r.id)
      ==> Drawable(bindings, groupId, office, Legacy, r)
          && DrawRestaurant(bindings, restaurants, groupId, office, Legacy, s).Some?
  {
  }

  /** A soft-deleted restaurant (`isActive: false`) is never drawn, by either copy, whatever
      its bindings say. */
  lemma SoftDeletedNeverDrawn(bindings: seq<Binding>, restaurants: seq<Restaurant>, groupId: string,
                              office: string, v: Variant, r: Restaurant, s: nat)
    requires !r.isActive
    ensures !Drawable(bindings, groupId, office, v, r)
    ensures DrawRestaurant(bindings, restaurants, groupId, office, v, s) != Some(r)
  {
  }
}
