/** The four record types of the schema files under server/models, the defaults their schemas fill in, the
    `required` rule, and the unique indexes the database enforces. Object ids are natural
    numbers; timestamps (`createdAt`/`updatedAt`) are left out. */
module Schema {
  import opened JsText

  type RestaurantId = nat
  type BindingId = nat
  type RecordId = nat

  /** A restaurant (server/models/Restaurant.js). `groupId` is optional: the schema spells
      its rule `require`, which the ODM ignores. */
  datatype Restaurant = Restaurant(
    id: RestaurantId,
    groupId: Option<string>,
    name: string,
    menu: seq<string>,
    address: string,
    phone: string,
    tags: seq<string>,
    isActive: bool)

  /** An office binding (server/models/GroupRestaurant.js). */
  datatype Binding = Binding(
    id: BindingId,
    groupId: string,
    office: string,
    restaurantId: RestaurantId,
    isActiveInOffice: bool,
    note: Option<string>)

  /** A group's settings (server/models/GroupSetting.js). */
  datatype GroupSetting = GroupSetting(
    groupId: string,
    lunchNotification: bool,
    currentOffice: string,
    officeOption: seq<string>)

  /** One draw (server/models/DrawHistory.js): these four fields and nothing else; the schema
      does not enable timestamps, so there is no `updatedAt`. */
  datatype DrawRecord = DrawRecord(
    id: RecordId,
    restaurantId: RestaurantId,
    groupId: string,
    drawnAt: int)

  /** A new restaurant document: `name` is required (a missing or empty name fails
      validation), `address` and `phone` default to "", `tags` and `menu` to [], `isActive`
      to true; no group is recorded. */
  function NewRestaurant(id: RestaurantId, name: Option<string>, tags: Option<seq<string>>,
                         address: Option<string>, phone: Option<string>): (r: Option<Restaurant>)
    ensures r.Some? <==> Truthy(name)
    ensures r.Some? ==> r.value.id == id && r.value.name == name.value && r.value.isActive
    ensures r.Some? ==> r.value.menu == [] && r.value.groupId.None?
    ensures r.Some? && address.None? ==> r.value.address == ""
    ensures r.Some? && phone.None? ==> r.value.phone == ""
    ensures r.Some? && tags.None? ==> r.value.tags == []
    ensures r.Some? && address.Some? ==> r.value.address == address.value
    ensures r.Some? && phone.Some? ==> r.value.phone == phone.value
    ensures r.Some? && tags.Some? ==> r.value.tags == tags.value
  {
    if !Truthy(name) then None
    else Some(Restaurant(id, None, name.value, [], Default(address, ""), Default(phone, ""),
                         Default(tags, []), true))
  }

  /** A new binding document: `groupId`, `office` and `restaurantId` are required,
      `isActiveInOffice` defaults to true and `note` stays optional. */
  function NewBinding(id: BindingId, groupId: string, office: string, restaurantId: Option<RestaurantId>,
                      isActiveInOffice: Option<bool>, note: Option<string>): (b: Option<Binding>)
    ensures b.Some? <==> groupId != "" && office != "" && restaurantId.Some?
    ensures b.Some? ==> b.value.id == id && b.value.groupId == groupId && b.value.office == office
    ensures b.Some? ==> b.value.restaurantId == restaurantId.value && b.value.note == note
    ensures b.Some? && isActiveInOffice.None? ==> b.value.isActiveInOffice
    ensures b.Some? && isActiveInOffice.Some? ==> b.value.isActiveInOffice == isActiveInOffice.value
  {
    if groupId == "" || office == "" || restaurantId.None? then None
    else Some(Binding(id, groupId, office, restaurantId.value, Default(isActiveInOffice, true), note))
  }

  /** A new settings document: `groupId` is required; `currentOffice` defaults to 'default'
      but an explicit "" fails `required`; `officeOption` defaults to [] and
      `lunchNotification` to false. Nothing ties `currentOffice` to `officeOption`. */
  function NewGroupSetting(groupId: string, currentOffice: Option<string>, officeOption: Option<seq<string>>,
                           lunchNotification: Option<bool>): (s: Option<GroupSetting>)
    ensures s.Some? <==> groupId != "" && currentOffice != Some("")
    ensures s.Some? ==> s.value.groupId == groupId && s.value.currentOffice != ""
    ensures s.Some? && currentOffice.None? ==> s.value.currentOffice == "default"
    ensures s.Some? && currentOffice.Some? ==> s.value.currentOffice == currentOffice.value
    ensures s.Some? && officeOption.None? ==> s.value.officeOption == []
    ensures s.Some? && officeOption.Some? ==> s.value.officeOption == officeOption.value
    ensures s.Some? && lunchNotification.None? ==> !s.value.lunchNotification
    ensures s.Some? && lunchNotification.Some? ==> s.value.lunchNotification == lunchNotification.value
  {
    if groupId == "" || currentOffice == Some("") then None
    else Some(GroupSetting(groupId, Default(lunchNotification, false), Default(currentOffice, "default"),
                           Default(officeOption, [])))
  }

  /** A new draw record: `restaurantId` and `groupId` are required; `drawnAt` defaults to the
      creation time `now`. */
  function NewDrawRecord(id: RecordId, restaurantId: Option<RestaurantId>, groupId: string,
                         drawnAt: Option<int>, now: int): (d: Option<DrawRecord>)
    ensures d.Some? <==> restaurantId.Some? && groupId != ""
    ensures d.Some? ==> d.value.id == id && d.value.restaurantId == restaurantId.value && d.value.groupId == groupId
    ensures d.Some? && drawnAt.None? ==> d.value.drawnAt == now
    ensures d.Some? && drawnAt.Some? ==> d.value.drawnAt == drawnAt.value
  {
    if restaurantId.None? || groupId == "" then None
    else Some(DrawRecord(id, restaurantId.value, groupId, Default(drawnAt, now)))
  }

  /** The unique index `{ name: 1, address: 1 }`: uniqueness is global, not per group. */
  predicate SameRestaurantKey(a: Restaurant, b: Restaurant) {
    a.name == b.name && a.address == b.address
  }

  /** The unique index `{ groupId: 1, office: 1, restaurantId: 1 }`. */
  predicate SameBindingKey(a: Binding, b: Binding) {
    a.groupId == b.groupId && a.office == b.office && a.restaurantId == b.restaurantId
  }

  predicate RestaurantsApart(a: Restaurant, b: Restaurant) {
    a.id != b.id && !SameRestaurantKey(a, b)
  }

  predicate BindingsApart(a: Binding, b: Binding) {
    a.id != b.id && !SameBindingKey(a, b)
  }

  /** The restaurant collection at rest: distinct ids and the (name, address) index. */
  ghost predicate RestaurantIndex(rs: seq<Restaurant>) {
    forall i, j :: 0 <= i < j < |rs| ==> RestaurantsApart(rs[i], rs[j])
  }

  /** The binding collection at rest: distinct ids and the (groupId, office, restaurantId) index. */
  ghost predicate BindingIndex(bs: seq<Binding>) {
    forall i, j :: 0 <= i < j < |bs| ==> BindingsApart(bs[i], bs[j])
  }

  /** The settings collection at rest: `groupId` is unique, so settings are keyed by it. */
  ghost predicate SettingIndex(m: map<string, GroupSetting>) {
    forall g :: g in m ==> m[g].groupId == g
  }

  /** Removing one document keeps the binding index. */
  lemma BindingIndexRemove(bs: seq<Binding>, k: nat)
    requires BindingIndex(bs) && k < |bs|
    ensures BindingIndex(bs[..k] + bs[k + 1..])
  {
    var t := bs[..k] + bs[k + 1..];
    forall i, j | 0 <= i < j < |t| ensures BindingsApart(t[i], t[j]) {
      var i', j' := if i < k then i else i + 1, if j < k then j else j + 1;
      assert t[i] == bs[i'] && t[j] == bs[j'];
    }
  }
}
