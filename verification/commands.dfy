/** What the two chat handlers (`handleEvent` in server/routes/webhookRouter.js and in
    index.js) have in common: the LINE event shapes, the resolution of the group id, the reply
    kinds, the read-only commands, and the effects of the commands that write. Each writing
    command's effect is a relation between the collections before and after it; the handlers'
    methods promise that relation, and the lemmas below are proved about it. */
module Commands {
  import opened JsText
  import opened Schema
  import opened Collections
  import opened Draw

  /** A LINE user, group or room id: the platform never sends an empty one. */
  type LineId = s: string | s != "" witness "U"

  /** `event.source`, by its `type`: 'user', 'group' or 'room'. */
  datatype Source = UserSource(userId: LineId) | GroupSource(groupId: LineId, member: Option<LineId>)
                  | RoomSource(roomId: LineId, member: Option<LineId>)

  datatype Message = TextMessage(text: string) | OtherMessage

  datatype Event = MessageEvent(message: Message, source: Source) | OtherEvent(source: Source)

  /** The reply kinds; their wording is not modelled, only what each one reports. */
  datatype Reply =
    | SetupCreated | NotConfigured | Help
    | NoOffices | OfficeList(offices: set<string>)
    | SwitchUsage | UnknownOffice(office: string, available: set<string>) | Switched(office: string)
    | NoRestaurants | RestaurantList(catalogue: multiset<string>)
    | NoCurrentOffice | EmptyOffice(office: string) | OfficeRestaurants(office: string, names: seq<string>)
    | AddUsage | AlreadyBound(name: string, office: string) | Added(name: string, office: string)
    | DeleteUsage | RestaurantNotFound(name: string) | BindingNotFound(name: string, office: string)
    | Deleted(name: string, office: string)
    | Drawn(name: string) | NothingToDraw

  /** What `handleEvent` resolves to: null, a reply, or a thrown error (a binding whose
      restaurant is gone populates to null, and reading its `name` throws). */
  datatype Outcome = Ignored | Replied(reply: Reply) | Failed

  /** A text message: the only event the handlers act on. */
  predicate IsText(e: Event) {
    e.MessageEvent? && e.message.TextMessage?
  }

  /** The id the group's records are kept under: the user's own id in a one-to-one chat,
      otherwise the group's or the room's id, never the speaking member's. */
  function GroupIdOf(s: Source): (g: LineId)
    ensures s.UserSource? ==> g == s.userId
    ensures s.GroupSource? ==> g == s.groupId
    ensures s.RoomSource? ==> g == s.roomId
  {
    match s
    case UserSource(u) => u
    case GroupSource(gid, _) => gid
    case RoomSource(r, _) => r
  }

  /** `/辦公室列表`: the distinct offices of the group's bindings. */
  function OfficeListReply(bindings: seq<Binding>, g: string): (r: Reply)
    ensures r == NoOffices <==> forall b :: b in bindings ==> b.groupId != g
    ensures r != NoOffices ==> r == OfficeList(DistinctOffices(bindings, g)) && r.offices != {}
  {
    var offices := DistinctOffices(bindings, g);
    assert forall b :: b in bindings && b.groupId == g ==> b.office in offices;
    if offices == {} then NoOffices else OfficeList(offices)
  }

  /** The names of `rs`, in order. */
  function Names(rs: seq<Restaurant>): (names: seq<string>)
    ensures |names| == |rs|
    ensures forall k :: 0 <= k < |rs| ==> names[k] == rs[k].name
  {
    seq(|rs|, k requires 0 <= k < |rs| => rs[k].name)
  }

  /** `/全部餐廳`: every restaurant of the catalogue, soft-deleted ones included, in every
      group. */
  function AllRestaurantsReply(restaurants: seq<Restaurant>): (r: Reply)
    ensures r == NoRestaurants <==> restaurants == []
    ensures r != NoRestaurants ==>
      r.RestaurantList? && |r.catalogue| == |restaurants| && forall x :: x in restaurants ==> x.name in r.catalogue
    ensures r != NoRestaurants ==> r.catalogue == multiset(Names(restaurants))
  {
    if restaurants == [] then NoRestaurants
    else
      var names := Names(restaurants);
      assert forall x :: x in restaurants ==> x.name in names;
      RestaurantList(multiset(names))
  }

  /** The names `.populate('restaurantId')` yields for bindings that all resolve. */
  function BoundNames(bs: seq<Binding>, restaurants: seq<Restaurant>): (names: seq<string>)
    requires AllResolve(bs, restaurants)
    ensures |names| == |bs|
    ensures forall k :: 0 <= k < |bs| ==> names[k] == FindRestaurant(restaurants, bs[k].restaurantId).value.name
  {
    seq(|bs|, k requires 0 <= k < |bs| => FindRestaurant(restaurants, bs[k].restaurantId).value.name)
  }

  /** `/目前餐廳` (and `/列表` in the older handler): the current office's bindings, whatever
      their `isActiveInOffice` and their restaurant's `isActive`. */
  function CurrentListReply(settings: map<string, GroupSetting>, bindings: seq<Binding>, restaurants: seq<Restaurant>,
                            g: string): (o: Outcome)
    ensures (g !in settings || settings[g].currentOffice == "") <==> o == Replied(NoCurrentOffice)
    ensures o.Failed? ==> g in settings && !AllResolve(OfficeBindings(bindings, g, settings[g].currentOffice), restaurants)
    ensures o.Replied? && o.reply.OfficeRestaurants? ==>
      && g in settings
      && var bs := OfficeBindings(bindings, g, settings[g].currentOffice);
         o.reply.office == settings[g].currentOffice && bs != [] && AllResolve(bs, restaurants)
         && o.reply.names == BoundNames(bs, restaurants)
    ensures o.Replied? && o.reply.EmptyOffice? ==>
      g in settings && o.reply.office == settings[g].currentOffice
      && OfficeBindings(bindings, g, settings[g].currentOffice) == []
    ensures o.Ignored? == false
    ensures g in settings && settings[g].currentOffice != "" ==>
      var office := settings[g].currentOffice;
      var bs := OfficeBindings(bindings, g, office);
      && (bs == [] <==> o == Replied(EmptyOffice(office)))
      && (o.Failed? <==> bs != [] && !AllResolve(bs, restaurants))
      && (bs != [] && AllResolve(bs, restaurants) ==> o == Replied(OfficeRestaurants(office, BoundNames(bs, restaurants))))
  {
    if g !in settings || settings[g].currentOffice == "" then Replied(NoCurrentOffice)
    else
      var office := settings[g].currentOffice;
      var bs := OfficeBindings(bindings, g, office);
      if |bs| == 0 then Replied(EmptyOffice(office))
      else if !AllResolve(bs, restaurants) then Failed
      else Replied(OfficeRestaurants(office, BoundNames(bs, restaurants)))
  }

  /** `吃飯` (and `抽獎` in the older handler): a draw from the current office with the copy
      of `drawRestaurant` that ignores `isActiveInOffice`. */
  function EatReply(settings: map<string, GroupSetting>, bindings: seq<Binding>, restaurants: seq<Restaurant>,
                    g: string, sample: nat): (r: Reply)
    ensures g !in settings <==> r == NotConfigured
    ensures r.Drawn? ==>
      g in settings
      && exists x :: x in restaurants && Drawable(bindings, g, settings[g].currentOffice, Legacy, x) && x.name == r.name
    ensures r == NothingToDraw <==>
      g in settings && !exists x :: x in restaurants && Drawable(bindings, g, settings[g].currentOffice, Legacy, x)
    ensures r.Drawn? || r == NotConfigured || r == NothingToDraw
  {
    if g !in settings then NotConfigured
    else
      var result := DrawRestaurant(bindings, restaurants, g, settings[g].currentOffice, Legacy, sample);
      if result.Some? then Drawn(result.value.name) else NothingToDraw
  }

  /** The settings `/機器人` creates for a new group. */
  function InitialSetting(g: LineId): (s: GroupSetting)
    ensures Some(s) == NewGroupSetting(g, Some("default"), Some(["default"]), None)
    ensures s.currentOffice in s.officeOption
  {
    GroupSetting(g, false, "default", ["default"])
  }

  /** The effect of `/切換辦公室 office`: a missing argument or an office with no binding in
      the group changes nothing; otherwise only the group's `currentOffice` changes. */
  predicate SwitchEffect(settings: map<string, GroupSetting>, bindings: seq<Binding>, g: string, office: string,
                         reply: Reply, settings': map<string, GroupSetting>)
    requires g in settings
  {
    if office == "" then reply == SwitchUsage && settings' == settings
    else
      var offices := DistinctOffices(bindings, g);
      if office !in offices then reply == UnknownOffice(office, offices) && settings' == settings
      else reply == Switched(office) && settings' == settings[g := settings[g].(currentOffice := office)]
  }

  /** The effect of `/新增餐廳 name office`: the first restaurant called `name` (in any
      group) is reused, or a new one is created with the defaults; then the binding is
      added unless that (group, office, restaurant) triple already exists. */
  predicate AddEffect(rs: seq<Restaurant>, nextR: nat, bs: seq<Binding>, nextB: nat, g: string, name: string,
                      office: string, reply: Reply, rs': seq<Restaurant>, bs': seq<Binding>)
  {
    if name == "" || office == "" then reply == AddUsage && rs' == rs && bs' == bs
    else
      var found := FindRestaurantByName(rs, name);
      var rid := if found.Some? then found.value.id else nextR;
      && rs' == (if found.Some? then rs else rs + [Restaurant(nextR, None, name, [], "", "", [], true)])
      && if TriplePos(bs, g, office, rid) < |bs| then reply == AlreadyBound(name, office) && bs' == bs
         else reply == Added(name, office) && bs' == bs + [Binding(nextB, g, office, rid, true, None)]
  }

  /** The effect of `/刪除餐廳 name office`: at most the first binding of the triple goes;
      restaurants are never touched. */
  predicate DeleteEffect(rs: seq<Restaurant>, bs: seq<Binding>, g: string, name: string, office: string,
                         reply: Reply, bs': seq<Binding>)
  {
    if name == "" || office == "" then reply == DeleteUsage && bs' == bs
    else
      var found := FindRestaurantByName(rs, name);
      if found.None? then reply == RestaurantNotFound(name) && bs' == bs
      else
        var k := TriplePos(bs, g, office, found.value.id);
        if k == |bs| then reply == BindingNotFound(name, office) && bs' == bs
        else reply == Deleted(name, office) && bs' == bs[..k] + bs[k + 1..]
  }

  /** `/新增餐廳` on the collections. */
  method AddRestaurant(bindings: BindingCollection, restaurants: RestaurantCollection, g: LineId, name: string,
                       office: string)
    returns (reply: Reply)
    requires bindings.Valid() && restaurants.Valid()
    modifies bindings, restaurants
    ensures bindings.Valid() && restaurants.Valid()
    ensures AddEffect(old(restaurants.docs), old(restaurants.nextId), old(bindings.docs), old(bindings.nextId),
                      g, name, office, reply, restaurants.docs, bindings.docs)
  {
    if name == "" || office == "" {
      return AddUsage;
    }
    var found := FindRestaurantByName(restaurants.docs, name);
    var rid: RestaurantId;
    if found.Some? {
      rid := found.value.id;
    } else {
      var created := restaurants.Create(Some(name), None, None, None);
      assert created.Written?;
      rid := created.value.id;
    }
    var k := TriplePos(bindings.docs, g, office, rid);
    if k < |bindings.docs| {
      return AlreadyBound(name, office);
    }
    var added := bindings.Create(g, office, Some(rid), None, None);
    assert added.Written?;
    reply := Added(name, office);
  }

  /** The catalogue only grows under `/新增餐廳`, by at most the one new restaurant. */
  lemma AddKeepsRestaurants(rs: seq<Restaurant>, nextR: nat, bs: seq<Binding>, nextB: nat, g: string, name: string,
                            office: string, reply: Reply, rs': seq<Restaurant>, bs': seq<Binding>)
    requires AddEffect(rs, nextR, bs, nextB, g, name, office, reply, rs', bs')
    ensures rs <= rs' && |rs'| <= |rs| + 1
    ensures bs <= bs' && |bs'| <= |bs| + 1
  {
  }

  /** After `/新增餐廳 name office` the office holds a binding to a restaurant called
      `name`, whether it was added or already there. */
  lemma AddBinds(rs: seq<Restaurant>, nextR: nat, bs: seq<Binding>, nextB: nat, g: string, name: string,
                 office: string, reply: Reply, rs': seq<Restaurant>, bs': seq<Binding>)
    requires AddEffect(rs, nextR, bs, nextB, g, name, office, reply, rs', bs')
    requires name != "" && office != ""
    ensures exists b, r :: b in bs' && r in rs' && b.groupId == g && b.office == office
                           && b.restaurantId == r.id && r.name == name
  {
    var found := FindRestaurantByName(rs, name);
    var r := if found.Some? then found.value else Restaurant(nextR, None, name, [], "", "", [], true);
    assert r in rs';
    var k := TriplePos(bs, g, office, r.id);
    if k < |bs| {
      assert bs'[k] in bs';
    } else {
      assert bs'[|bs|] in bs';
    }
  }

  /** Repeating `/新增餐廳 name office` changes nothing and reports the binding as already
      there, provided restaurant ids are fresh. */
  lemma AddTwice(rs: seq<Restaurant>, nextR: nat, bs: seq<Binding>, nextB: nat, g: string, name: string,
                 office: string, reply1: Reply, rs1: seq<Restaurant>, bs1: seq<Binding>,
                 nextR': nat, nextB': nat, reply2: Reply, rs2: seq<Restaurant>, bs2: seq<Binding>)
    requires forall r :: r in rs ==> r.id < nextR
    requires AddEffect(rs, nextR, bs, nextB, g, name, office, reply1, rs1, bs1)
    requires AddEffect(rs1, nextR', bs1, nextB', g, name, office, reply2, rs2, bs2)
    requires name != "" && office != ""
    ensures reply2 == AlreadyBound(name, office) && rs2 == rs1 && bs2 == bs1
  {
    var found := FindRestaurantByName(rs, name);
    var rid := if found.Some? then found.value.id else nextR;
    assert FindRestaurantByName(rs1, name).Some? && FindRestaurantByName(rs1, name).value.id == rid by {
      if found.None? {
        assert NamePos(rs, name) == |rs|;
        NamePosAppend(rs, Restaurant(nextR, None, name, [], "", "", [], true), name);
      }
    }
    if TriplePos(bs, g, office, rid) == |bs| {
      TriplePosAppend(bs, Binding(nextB, g, office, rid, true, None), g, office, rid);
    }
  }

  /** `/刪除餐廳` right after a successful `/新增餐廳` with the same arguments gives back
      the bindings there were before. */
  lemma AddThenDelete(rs: seq<Restaurant>, nextR: nat, bs: seq<Binding>, nextB: nat, g: string, name: string,
                      office: string, rs1: seq<Restaurant>, bs1: seq<Binding>, reply2: Reply, bs2: seq<Binding>)
    requires AddEffect(rs, nextR, bs, nextB, g, name, office, Added(name, office), rs1, bs1)
    requires DeleteEffect(rs1, bs1, g, name, office, reply2, bs2)
    ensures reply2 == Deleted(name, office) && bs2 == bs
  {
    var found := FindRestaurantByName(rs, name);
    var rid := if found.Some? then found.value.id else nextR;
    assert FindRestaurantByName(rs1, name).Some? && FindRestaurantByName(rs1, name).value.id == rid by {
      if found.None? {
        assert NamePos(rs, name) == |rs|;
        NamePosAppend(rs, Restaurant(nextR, None, name, [], "", "", [], true), name);
      }
    }
    assert TriplePos(bs, g, office, rid) == |bs|;
    TriplePosAppend(bs, Binding(nextB, g, office, rid, true, None), g, office, rid);
    assert bs1[..|bs|] == bs;
  }

  /** `/刪除餐廳` removes at most one binding and invents none. */
  lemma DeleteRemovesAtMostOne(rs: seq<Restaurant>, bs: seq<Binding>, g: string, name: string, office: string,
                               reply: Reply, bs': seq<Binding>)
    requires DeleteEffect(rs, bs, g, name, office, reply, bs')
    ensures multiset(bs') <= multiset(bs) && |bs| <= |bs'| + 1
    ensures reply.Deleted? <==> |bs'| + 1 == |bs|
  {
    var found := FindRestaurantByName(rs, name);
    if name != "" && office != "" && found.Some? {
      var k := TriplePos(bs, g, office, found.value.id);
      if k < |bs| {
        RemovingOne(bs, k);
      }
    }
  }

  /** Removing the element at `k` removes exactly one element. */
  lemma RemovingOne(bs: seq<Binding>, k: nat)
    requires k < |bs|
    ensures multiset(bs[..k] + bs[k + 1..]) + multiset{bs[k]} == multiset(bs)
    ensures |bs[..k] + bs[k + 1..]| + 1 == |bs|
  {
    assert bs == bs[..k] + [bs[k]] + bs[k + 1..];
  }

  /** With the binding index in place, after a `/刪除餐廳` that reports a deletion the
      triple is gone from the office. */
  lemma DeleteUnbinds(rs: seq<Restaurant>, bs: seq<Binding>, g: string, name: string, office: string,
                      reply: Reply, bs': seq<Binding>)
    requires BindingIndex(bs)
    requires DeleteEffect(rs, bs, g, name, office, reply, bs')
    requires reply.Deleted?
    ensures var r := FindRestaurantByName(rs, name).value;
      forall b :: b in bs' ==> !(b.groupId == g && b.office == office && b.restaurantId == r.id)
  {
    var r := FindRestaurantByName(rs, name).value;
    var k := TriplePos(bs, g, office, r.id);
    forall b | b in bs' ensures !(b.groupId == g && b.office == office && b.restaurantId == r.id) {
      var j :| 0 <= j < |bs'| && bs'[j] == b;
      var i := if j < k then j else j + 1;
      assert bs'[j] == bs[i];
      if i < k {
      } else {
        assert BindingsApart(bs[k], bs[i]);
      }
    }
  }

  /** A successful switch leaves the current office among the offices the group's bindings
      name; every other group is untouched. */
  lemma SwitchLandsOnBoundOffice(settings: map<string, GroupSetting>, bindings: seq<Binding>, g: string,
                                 office: string, reply: Reply, settings': map<string, GroupSetting>)
    requires g in settings
    requires SwitchEffect(settings, bindings, g, office, reply, settings')
    ensures reply.Switched? ==> g in settings' && exists b :: b in bindings && b.groupId == g
                                                   && b.office == settings'[g].currentOffice
    ensures settings'.Keys == settings.Keys
    ensures forall h :: h in settings && h != g ==> settings'[h] == settings[h]
    ensures g in settings' && settings'[g].officeOption == settings[g].officeOption
  {
  }

  /** Once an office name is in the group's bindings, a switch to it always succeeds. */
  lemma SwitchToBoundOffice(settings: map<string, GroupSetting>, bindings: seq<Binding>, g: string,
                            b: Binding, reply: Reply, settings': map<string, GroupSetting>)
    requires g in settings && b in bindings && b.groupId == g && b.office != ""
    requires SwitchEffect(settings, bindings, g, b.office, reply, settings')
    ensures reply == Switched(b.office) && settings'[g].currentOffice == b.office
  {
    assert b.office in DistinctOffices(bindings, g);
  }

  lemma NamePosAppend(rs: seq<Restaurant>, r: Restaurant, name: string)
    requires NamePos(rs, name) == |rs| && r.name == name
    ensures FindRestaurantByName(rs + [r], name) == Some(r)
  {
    var t := rs + [r];
    assert forall j :: 0 <= j < |rs| ==> t[j] == rs[j];
    assert t[|rs|] == r;
    assert NamePos(t, name) == |rs|;
  }

  lemma TriplePosAppend(bs: seq<Binding>, b: Binding, g: string, office: string, rid: RestaurantId)
    requires TriplePos(bs, g, office, rid) == |bs|
    requires b.groupId == g && b.office == office && b.restaurantId == rid
    ensures TriplePos(bs + [b], g, office, rid) == |bs|
  {
    var t := bs + [b];
    assert forall j :: 0 <= j < |bs| ==> t[j] == bs[j];
    assert t[|bs|] == b;
  }
}
