/** The MongoDB collections the handlers share, one class each. A collection holds its
    documents in natural (insertion) order, assigns fresh ids, and refuses a write that fails
    schema validation or a unique index; `Valid()` is the index at rest. The queries the
    handlers issue are functions of the documents. */
module Collections {
  import opened JsText
  import opened Schema

  /** The result of a write: the stored document, or the error the database raises. */
  datatype WriteResult<T> = Written(value: T) | ValidationError | DuplicateKey

  /** No document other than the one at `except` has the (name, address) key of `r`. */
  predicate RestaurantKeyFree(docs: seq<Restaurant>, r: Restaurant, except: int) {
    forall k :: 0 <= k < |docs| && k != except ==> !SameRestaurantKey(docs[k], r)
  }

  /** No document other than the one at `except` has the (groupId, office, restaurantId) key of `b`. */
  predicate BindingKeyFree(docs: seq<Binding>, b: Binding, except: int) {
    forall k :: 0 <= k < |docs| && k != except ==> !SameBindingKey(docs[k], b)
  }

  /** The position of the first document satisfying the filter `p`, or |docs| when there is
      none: what `findOne` and `findById` return on a collection in natural order. */
  function FirstPos<T>(docs: seq<T>, p: T -> bool): (k: nat)
    ensures k <= |docs|
    ensures k < |docs| ==> p(docs[k])
    ensures forall j :: 0 <= j < k ==> !p(docs[j])
  {
    if docs == [] then 0 else if p(docs[0]) then 0 else 1 + FirstPos(docs[1..], p)
  }

  /** The position of the document `findById(id)` returns, or |docs| when there is none. */
  function RestaurantPos(docs: seq<Restaurant>, id: RestaurantId): nat {
    FirstPos(docs, (r: Restaurant) => r.id == id)
  }

  /** `Restaurant.findById(id)`. */
  function FindRestaurant(docs: seq<Restaurant>, id: RestaurantId): (r: Option<Restaurant>)
    ensures r.Some? <==> exists k :: 0 <= k < |docs| && docs[k].id == id
    ensures r.Some? ==> r.value in docs && r.value.id == id
  {
    var k := RestaurantPos(docs, id);
    if k < |docs| then Some(docs[k]) else None
  }

  /** The position of the first document `Restaurant.findOne({ name })` returns, or |docs|. */
  function NamePos(docs: seq<Restaurant>, name: string): nat {
    FirstPos(docs, (r: Restaurant) => r.name == name)
  }

  /** `Restaurant.findOne({ name })`: the first restaurant with that name, in any group. */
  function FindRestaurantByName(docs: seq<Restaurant>, name: string): (r: Option<Restaurant>)
    ensures r.Some? <==> exists k :: 0 <= k < |docs| && docs[k].name == name
    ensures r.Some? ==> r.value in docs && r.value.name == name
  {
    var k := NamePos(docs, name);
    if k < |docs| then Some(docs[k]) else None
  }

  /** The position of the binding with id `id`, or |docs|. */
  function BindingPos(docs: seq<Binding>, id: BindingId): nat {
    FirstPos(docs, (b: Binding) => b.id == id)
  }

  /** The position of the first binding `findOne({ groupId, restaurantId, office })` returns, or |docs|. */
  function TriplePos(docs: seq<Binding>, groupId: string, office: string, restaurantId: RestaurantId): nat {
    FirstPos(docs, (b: Binding) => b.groupId == groupId && b.office == office && b.restaurantId == restaurantId)
  }

  /** `GroupRestaurant.distinct('office', { groupId })`: the offices that have at least one
      binding in the group, whatever their flags. */
  function DistinctOffices(docs: seq<Binding>, groupId: string): (offices: set<string>)
    ensures forall o :: o in offices <==> exists b :: b in docs && b.groupId == groupId && b.office == o
  {
    set b | b in docs && b.groupId == groupId :: b.office
  }

  /** `GroupRestaurant.find({ groupId, office })`: the bindings of one office, in order. */
  function OfficeBindings(docs: seq<Binding>, groupId: string, office: string): (bs: seq<Binding>)
    ensures |bs| <= |docs|
    ensures forall b :: b in bs <==> b in docs && b.groupId == groupId && b.office == office
    ensures forall b :: multiset(bs)[b] == if b.groupId == groupId && b.office == office then multiset(docs)[b] else 0
  {
    if docs == [] then []
    else
      assert docs == [docs[0]] + docs[1..];
      var rest := OfficeBindings(docs[1..], groupId, office);
      if docs[0].groupId == groupId && docs[0].office == office then [docs[0]] + rest else rest
  }

  /** Every binding resolves to a restaurant: `.populate('restaurantId')` yields a document
      for each of them rather than null. */
  predicate AllResolve(bs: seq<Binding>, restaurants: seq<Restaurant>) {
    forall k :: 0 <= k < |bs| ==> FindRestaurant(restaurants, bs[k].restaurantId).Some?
  }

  class RestaurantCollection {
    var docs: seq<Restaurant>
    var nextId: nat

    ghost predicate Valid()
      reads this
    {
      RestaurantIndex(docs) && forall k :: 0 <= k < |docs| ==> docs[k].id < nextId
    }

    constructor ()
      ensures Valid() && docs == []
    {
      docs, nextId := [], 0;
    }

    /** `Restaurant.create(fields)`, or `new Restaurant(fields).save()`: validation first, then
        the (name, address) index. */
    method Create(name: Option<string>, tags: Option<seq<string>>, address: Option<string>, phone: Option<string>)
      returns (res: WriteResult<Restaurant>)
      requires Valid()
      modifies this
      ensures Valid()
      ensures res.ValidationError? <==> !Truthy(name)
      ensures res.DuplicateKey? <==>
        Truthy(name) && !RestaurantKeyFree(old(docs), NewRestaurant(old(nextId), name, tags, address, phone).value, -1)
      ensures res.Written? ==>
        Some(res.value) == NewRestaurant(old(nextId), name, tags, address, phone) && docs == old(docs) + [res.value]
      ensures !res.Written? ==> docs == old(docs)
    {
      var r := NewRestaurant(nextId, name, tags, address, phone);
      if r.None? {
        return ValidationError;
      }
      if !RestaurantKeyFree(docs, r.value, -1) {
        return DuplicateKey;
      }
      docs := docs + [r.value];
      nextId := nextId + 1;
      res := Written(r.value);
    }

    /** `findByIdAndUpdate` of the document at `k`: update validators do not run, so only the
        unique index can refuse the new version. */
    method Replace(k: nat, r: Restaurant) returns (ok: bool)
      requires Valid() && k < |docs| && r.id == docs[k].id
      modifies this
      ensures Valid() && nextId == old(nextId)
      ensures ok == RestaurantKeyFree(old(docs), r, k)
      ensures docs == if ok then old(docs)[k := r] else old(docs)
    {
      ok := RestaurantKeyFree(docs, r, k);
      if ok {
        docs := docs[k := r];
      }
    }
  }

  class BindingCollection {
    var docs: seq<Binding>
    var nextId: nat

    ghost predicate Valid()
      reads this
    {
      BindingIndex(docs) && forall k :: 0 <= k < |docs| ==> docs[k].id < nextId
    }

    constructor ()
      ensures Valid() && docs == []
    {
      docs, nextId := [], 0;
    }

    /** `GroupRestaurant.create(fields)`, or `new GroupRestaurant(fields).save()`. Fields the
        schema does not declare (`addedBy`) are dropped. */
    method Create(groupId: string, office: string, restaurantId: Option<RestaurantId>,
                  isActiveInOffice: Option<bool>, note: Option<string>)
      returns (res: WriteResult<Binding>)
      requires Valid()
      modifies this
      ensures Valid()
      ensures res.ValidationError? <==> NewBinding(old(nextId), groupId, office, restaurantId, isActiveInOffice, note).None?
      ensures res.DuplicateKey? <==>
        var b := NewBinding(old(nextId), groupId, office, restaurantId, isActiveInOffice, note);
        b.Some? && !BindingKeyFree(old(docs), b.value, -1)
      ensures res.Written? ==>
        Some(res.value) == NewBinding(old(nextId), groupId, office, restaurantId, isActiveInOffice, note)
        && docs == old(docs) + [res.value]
      ensures !res.Written? ==> docs == old(docs)
    {
      var b := NewBinding(nextId, groupId, office, restaurantId, isActiveInOffice, note);
      if b.None? {
        return ValidationError;
      }
      if !BindingKeyFree(docs, b.value, -1) {
        return DuplicateKey;
      }
      docs := docs + [b.value];
      nextId := nextId + 1;
      res := Written(b.value);
    }

    /** `findByIdAndUpdate` of the binding at `k`; only the unique index can refuse it. */
    method Replace(k: nat, b: Binding) returns (ok: bool)
      requires Valid() && k < |docs| && b.id == docs[k].id
      modifies this
      ensures Valid() && nextId == old(nextId)
      ensures ok == BindingKeyFree(old(docs), b, k)
      ensures docs == if ok then old(docs)[k := b] else old(docs)
    {
      ok := BindingKeyFree(docs, b, k);
      if ok {
        docs := docs[k := b];
      }
    }

    /** Deletes the binding at `k`; the others keep their order. */
    method RemoveAt(k: nat)
      requires Valid() && k < |docs|
      modifies this
      ensures Valid() && nextId == old(nextId)
      ensures docs == old(docs)[..k] + old(docs)[k + 1..]
    {
      BindingIndexRemove(docs, k);
      docs := docs[..k] + docs[k + 1..];
    }
  }

  class SettingCollection {
    var byGroup: map<string, GroupSetting>

    ghost predicate Valid()
      reads this
    {
      SettingIndex(byGroup)
    }

    constructor ()
      ensures Valid() && byGroup == map[]
    {
      byGroup := map[];
    }

    /** `GroupSetting.create(fields)`, or `new GroupSetting(fields).save()`: validation first,
        then the unique `groupId`. */
    method Create(groupId: string, currentOffice: Option<string>, officeOption: Option<seq<string>>,
                  lunchNotification: Option<bool>)
      returns (res: WriteResult<GroupSetting>)
      requires Valid()
      modifies this
      ensures Valid()
      ensures res.ValidationError? <==> NewGroupSetting(groupId, currentOffice, officeOption, lunchNotification).None?
      ensures res.DuplicateKey? <==>
        NewGroupSetting(groupId, currentOffice, officeOption, lunchNotification).Some? && groupId in old(byGroup)
      ensures res.Written? ==>
        Some(res.value) == NewGroupSetting(groupId, currentOffice, officeOption, lunchNotification)
        && byGroup == old(byGroup)[groupId := res.value]
      ensures !res.Written? ==> byGroup == old(byGroup)
    {
      var s := NewGroupSetting(groupId, currentOffice, officeOption, lunchNotification);
      if s.None? {
        return ValidationError;
      }
      if groupId in byGroup {
        return DuplicateKey;
      }
      byGroup := byGroup[groupId := s.value];
      res := Written(s.value);
    }

    /** Stores `s` under its group id: an update of that group's document, or an upsert. */
    method Save(s: GroupSetting)
      requires Valid()
      modifies this
      ensures Valid()
      ensures byGroup == old(byGroup)[s.groupId := s]
    {
      byGroup := byGroup[s.groupId := s];
    }
  }

  /** The draw-history collection. No handler in the repository writes to it. */
  class HistoryCollection {
    var records: seq<DrawRecord>

    constructor (records: seq<DrawRecord>)
      ensures this.records == records
    {
      this.records := records;
    }
  }
}
