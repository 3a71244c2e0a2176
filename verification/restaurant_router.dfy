/** The `/restaurant` routes (server/routes/restaurantRouter.js) on the restaurant
    collection: search, lookup, insertion, overwrite and the soft delete. */
module RestaurantRouter {
  import opened JsText
  import opened Schema
  import opened Collections
  import opened Draw

  /** The restaurants whose name contains `keyword`, ignoring case, in collection order. */
  function NameMatches(docs: seq<Restaurant>, keyword: string): (rs: seq<Restaurant>)
    ensures |rs| <= |docs|
    ensures forall r :: r in rs <==> r in docs && ContainsIgnoringCase(r.name, keyword)
    ensures forall r :: multiset(rs)[r] == if ContainsIgnoringCase(r.name, keyword) then multiset(docs)[r] else 0
  {
    if docs == [] then []
    else
      assert docs == [docs[0]] + docs[1..];
      var rest := NameMatches(docs[1..], keyword);
      if ContainsIgnoringCase(docs[0].name, keyword) then [docs[0]] + rest else rest
  }

  /** `GET /?keyword=…`: every restaurant (active or not) without a keyword, otherwise those
      whose name matches it. */
  function Search(docs: seq<Restaurant>, keyword: Option<string>): (rs: seq<Restaurant>)
    ensures !Truthy(keyword) ==> rs == docs
    ensures Truthy(keyword) ==> forall r :: r in rs <==> r in docs && ContainsIgnoringCase(r.name, keyword.value)
    ensures Truthy(keyword) ==> rs == NameMatches(docs, keyword.value)
  {
    var k := OrDefault(keyword, "");
    if k == "" then docs else NameMatches(docs, k)
  }

  /** The search is the same for a keyword and for its lower-case form. */
  lemma SearchIgnoresCase(docs: seq<Restaurant>, keyword: string)
    ensures Search(docs, Some(keyword)) == Search(docs, Some(Lower(keyword)))
  {
    if keyword != "" {
      NameMatchesIgnoresCase(docs, keyword);
    }
  }

  lemma {:induction false} NameMatchesIgnoresCase(docs: seq<Restaurant>, keyword: string)
    ensures NameMatches(docs, keyword) == NameMatches(docs, Lower(keyword))
  {
    if docs != [] {
      NameMatchesIgnoresCase(docs[1..], keyword);
      ContainsLowerKeyword(docs[0].name, keyword);
    }
  }

  /** `GET /:id`: the restaurant with 200, or 404. */
  function GetRestaurant(docs: seq<Restaurant>, id: RestaurantId): (r: (nat, Option<Restaurant>))
    ensures r.0 == 404 <==> forall x :: x in docs ==> x.id != id
    ensures r.0 == 200 <==> r.1.Some?
    ensures r.1.Some? ==> r.1.value in docs && r.1.value.id == id
  {
    var found := FindRestaurant(docs, id);
    if found.Some? then (200, found) else (404, None)
  }

  /** `POST /add` with `{ name, tags, address, phone }`: 201 and one new restaurant, or 500
      for a missing name or a (name, address) already taken. */
  predicate AddEffect(docs: seq<Restaurant>, nextId: nat, name: Option<string>, tags: Option<seq<string>>,
                      address: Option<string>, phone: Option<string>, status: nat, docs': seq<Restaurant>) {
    var r := NewRestaurant(nextId, name, tags, address, phone);
    if r.None? || !RestaurantKeyFree(docs, r.value, -1) then status == 500 && docs' == docs
    else status == 201 && docs' == docs + [r.value]
  }

  method AddRestaurant(restaurants: RestaurantCollection, name: Option<string>, tags: Option<seq<string>>,
                       address: Option<string>, phone: Option<string>)
    returns (status: nat)
    requires restaurants.Valid()
    modifies restaurants
    ensures restaurants.Valid()
    ensures AddEffect(old(restaurants.docs), old(restaurants.nextId), name, tags, address, phone, status, restaurants.docs)
  {
    var created := restaurants.Create(name, tags, address, phone);
    status := if created.Written? then 201 else 500;
  }

  /** Adding the same restaurant twice: the second attempt hits the unique index. */
  lemma AddTwiceFails(docs: seq<Restaurant>, nextId: nat, name: Option<string>, tags: Option<seq<string>>,
                      address: Option<string>, phone: Option<string>, status1: nat, docs1: seq<Restaurant>,
                      status2: nat, docs2: seq<Restaurant>)
    requires AddEffect(docs, nextId, name, tags, address, phone, status1, docs1)
    requires AddEffect(docs1, nextId + 1, name, tags, address, phone, status2, docs2)
    requires status1 == 201
    ensures |docs1| == |docs| + 1 && docs1[|docs|].isActive && docs1[|docs|].menu == []
    ensures status2 == 500 && docs2 == docs1
  {
    var r2 := NewRestaurant(nextId + 1, name, tags, address, phone).value;
    assert SameRestaurantKey(docs1[|docs|], r2);
  }

  /** The body of `PUT /:id`: the fields that are present are overwritten. */
  datatype RestaurantPatch = RestaurantPatch(name: Option<string>, tags: Option<seq<string>>, address: Option<string>,
                                             phone: Option<string>, isActive: Option<bool>)

  function Patched(r: Restaurant, p: RestaurantPatch): (r': Restaurant)
    ensures r'.id == r.id && r'.groupId == r.groupId && r'.menu == r.menu
    ensures r'.name == Default(p.name, r.name) && r'.tags == Default(p.tags, r.tags)
    ensures r'.address == Default(p.address, r.address) && r'.phone == Default(p.phone, r.phone)
    ensures r'.isActive == Default(p.isActive, r.isActive)
  {
    r.(name := Default(p.name, r.name), tags := Default(p.tags, r.tags), address := Default(p.address, r.address),
       phone := Default(p.phone, r.phone), isActive := Default(p.isActive, r.isActive))
  }

  /** `PUT /:id` (`findByIdAndUpdate`, no validators): 404 for a missing id, 500 when the new
      (name, address) is another restaurant's, otherwise 200 and the record overwritten. */
  predicate PutEffect(docs: seq<Restaurant>, id: RestaurantId, patch: RestaurantPatch, status: nat,
                      docs': seq<Restaurant>) {
    var k := RestaurantPos(docs, id);
    if k == |docs| then status == 404 && docs' == docs
    else
      var r := Patched(docs[k], patch);
      if !RestaurantKeyFree(docs, r, k) then status == 500 && docs' == docs
      else status == 200 && docs' == docs[k := r]
  }

  method PutRestaurant(restaurants: RestaurantCollection, id: RestaurantId, patch: RestaurantPatch)
    returns (status: nat)
    requires restaurants.Valid()
    modifies restaurants
    ensures restaurants.Valid()
    ensures PutEffect(old(restaurants.docs), id, patch, status, restaurants.docs)
  {
    var k := RestaurantPos(restaurants.docs, id);
    if k == |restaurants.docs| {
      return 404;
    }
    var ok := restaurants.Replace(k, Patched(restaurants.docs[k], patch));
    status := if ok then 200 else 500;
  }

  /** Soft deletion: the record is kept, switched off. */
  function Deactivated(r: Restaurant): (r': Restaurant)
    ensures !r'.isActive
    ensures r' == r.(isActive := false)
  {
    r.(isActive := false)
  }

  /** `DELETE /:id`: 404 for a missing id, otherwise 200 with the restaurant deactivated in
      place. Its bindings stay. */
  predicate DeleteEffect(docs: seq<Restaurant>, id: RestaurantId, status: nat, docs': seq<Restaurant>) {
    var k := RestaurantPos(docs, id);
    if k == |docs| then status == 404 && docs' == docs
    else status == 200 && docs' == docs[k := Deactivated(docs[k])]
  }

  /** Switching `isActive` keeps the (name, address) key, so it never clashes. */
  lemma DeactivateKeyFree(docs: seq<Restaurant>, k: nat)
    requires RestaurantIndex(docs) && k < |docs|
    ensures RestaurantKeyFree(docs, Deactivated(docs[k]), k)
  {
    forall j | 0 <= j < |docs| && j != k ensures !SameRestaurantKey(docs[j], Deactivated(docs[k])) {
      if j < k {
        assert RestaurantsApart(docs[j], docs[k]);
      } else {
        assert RestaurantsApart(docs[k], docs[j]);
      }
    }
  }

  method DeleteRestaurant(restaurants: RestaurantCollection, id: RestaurantId) returns (status: nat)
    requires restaurants.Valid()
    modifies restaurants
    ensures restaurants.Valid()
    ensures DeleteEffect(old(restaurants.docs), id, status, restaurants.docs)
  {
    var k := RestaurantPos(restaurants.docs, id);
    if k == |restaurants.docs| {
      return 404;
    }
    DeactivateKeyFree(restaurants.docs, k);
    var ok := restaurants.Replace(k, Deactivated(restaurants.docs[k]));
    assert ok;
    status := 200;
  }

  /** A DELETE keeps every record and changes only the deleted one's `isActive`; a second
      DELETE of the same id leaves the same state. */
  lemma DeleteSoftAndIdempotent(docs: seq<Restaurant>, id: RestaurantId, status1: nat, docs1: seq<Restaurant>,
                                status2: nat, docs2: seq<Restaurant>)
    requires DeleteEffect(docs, id, status1, docs1)
    requires DeleteEffect(docs1, id, status2, docs2)
    ensures |docs1| == |docs| && status2 == status1 && docs2 == docs1
    ensures forall k :: 0 <= k < |docs| ==>
      docs1[k] == (if docs[k].id == id && status1 == 200 && k == RestaurantPos(docs, id) then Deactivated(docs[k]) else docs[k])
  {
    var k := RestaurantPos(docs, id);
    if k < |docs| {
      assert RestaurantPos(docs1, id) == k by {
        RestaurantPosUpdate(docs, k, Deactivated(docs[k]), id);
      }
    }
  }

  /** Replacing a record by one with the same id keeps every id's position. */
  lemma {:induction false} RestaurantPosUpdate(docs: seq<Restaurant>, k: nat, r: Restaurant, id: RestaurantId)
    requires k < |docs| && r.id == docs[k].id
    ensures RestaurantPos(docs[k := r], id) == RestaurantPos(docs, id)
  {
    if docs != [] && docs[0].id != id && k > 0 {
      assert docs[k := r][1..] == docs[1..][k - 1 := r];
      RestaurantPosUpdate(docs[1..], k - 1, r, id);
    }
  }

  /** A deleted restaurant is never drawn again, whatever its bindings say. */
  lemma DeletedNeverDrawn(docs: seq<Restaurant>, id: RestaurantId, status: nat, docs': seq<Restaurant>,
                          bindings: seq<Binding>, groupId: string, office: string, v: Variant, sample: nat)
    requires RestaurantIndex(docs)
    requires DeleteEffect(docs, id, status, docs') && status == 200
    ensures var r := DrawRestaurant(bindings, docs', groupId, office, v, sample);
      r.Some? ==> r.value.id != id
  {
    var k := RestaurantPos(docs, id);
    forall x | x in docs' && x.id == id ensures !x.isActive {
      var j :| 0 <= j < |docs'| && docs'[j] == x;
      if j > k {
        assert RestaurantsApart(docs[k], docs[j]);
      }
    }
  }
}
