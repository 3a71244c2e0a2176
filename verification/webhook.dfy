/** `handleEvent` of server/routes/webhookRouter.js, its `dev` side (the file still holds an
    unresolved merge; the other side is the older index.js handler, modelled in LegacyBot).
    The message is trimmed and matched against the commands in the order the handler tests
    them. `/機器人` may create the group's settings. Every other command needs the settings
    to exist. */
module Webhook {
  import opened JsText
  import opened Schema
  import opened Collections
  import opened Draw
  import opened Commands

  datatype Command =
    | Setup | ShowHelp | ListOffices | SwitchOffice(office: string) | AllRestaurants | CurrentRestaurants
    | AddRestaurant(name: string, office: string) | DeleteRestaurant(name: string, office: string)
    | Eat | NoCommand

  /** The command a trimmed message asks for. The tests are exact comparisons or prefixes, and at most one of them holds, so their order does not matter; arguments
      are the parts of `split(' ')` at positions 1 and 2. */
  function Classify(msg: string): (c: Command)
    ensures
      && (c == Setup <==> msg == "/機器人")
      && (c == ShowHelp <==> msg == "/h")
      && (c == ListOffices <==> msg == "/辦公室列表")
      && (c.SwitchOffice? <==> StartsWith(msg, "/切換辦公室"))
      && (c == AllRestaurants <==> msg == "/全部餐廳")
      && (c == CurrentRestaurants <==> msg == "/目前餐廳")
      && (c.AddRestaurant? <==> StartsWith(msg, "/新增餐廳"))
      && (c.DeleteRestaurant? <==> StartsWith(msg, "/刪除餐廳"))
      && (c == Eat <==> msg == "吃飯")
      && (c.SwitchOffice? ==> c.office == Arg(msg, 1))
      && (c.AddRestaurant? || c.DeleteRestaurant? ==> c.name == Arg(msg, 1) && c.office == Arg(msg, 2))
  {
    if msg == "/機器人" then Setup
    else if msg == "/h" then ShowHelp
    else if msg == "/辦公室列表" then
      assert msg[1] == '辦' && "/切換辦公室"[1] == '切' && "/新增餐廳"[1] == '新';
      ListOffices
    else if StartsWith(msg, "/切換辦公室") then SwitchOffice(Arg(msg, 1))
    else if msg == "/全部餐廳" then AllRestaurants
    else if msg == "/目前餐廳" then CurrentRestaurants
    else if StartsWith(msg, "/新增餐廳") then AddRestaurant(Arg(msg, 1), Arg(msg, 2))
    else if StartsWith(msg, "/刪除餐廳") then DeleteRestaurant(Arg(msg, 1), Arg(msg, 2))
    else if msg == "吃飯" then Eat
    else NoCommand
  }

  /** The command whose state the handler leaves as it found it. */
  predicate ReadOnly(c: Command) {
    !(c.SwitchOffice? || c.AddRestaurant? || c.DeleteRestaurant?)
  }

  /** The reply of a command that writes nothing, for a configured group. */
  function ReadOnlyOutcome(c: Command, settings: map<string, GroupSetting>, bindings: seq<Binding>,
                           restaurants: seq<Restaurant>, g: string, sample: nat): (o: Outcome)
    requires ReadOnly(c) && g in settings
    ensures c == Setup || c == NoCommand <==> o == Ignored
    ensures c == Eat ==> o.Replied? && (o.reply.Drawn? || o.reply == NothingToDraw)
  {
    match c
    case Setup => Ignored
    case ShowHelp => Replied(Help)
    case ListOffices => Replied(OfficeListReply(bindings, g))
    case AllRestaurants => Replied(AllRestaurantsReply(restaurants))
    case CurrentRestaurants => CurrentListReply(settings, bindings, restaurants, g)
    case Eat => Replied(EatReply(settings, bindings, restaurants, g, sample))
    case NoCommand => Ignored
  }

  /** `/切換辦公室 office` on the settings collection. The upsert never inserts here, since
      the group's settings were found before. */
  method SwitchOfficeCommand(settings: SettingCollection, bindings: BindingCollection, g: LineId, office: string)
    returns (reply: Reply)
    requires settings.Valid() && g in settings.byGroup
    modifies settings
    ensures settings.Valid()
    ensures SwitchEffect(old(settings.byGroup), bindings.docs, g, office, reply, settings.byGroup)
  {
    if office == "" {
      return SwitchUsage;
    }
    var officeList := DistinctOffices(bindings.docs, g);
    if office !in officeList {
      return UnknownOffice(office, officeList);
    }
    settings.Save(settings.byGroup[g].(currentOffice := office));
    reply := Switched(office);
  }

  /** `/刪除餐廳 name office` on the binding collection (`findOneAndDelete`). */
  method DeleteRestaurantCommand(bindings: BindingCollection, restaurants: RestaurantCollection, g: LineId,
                                 name: string, office: string)
    returns (reply: Reply)
    requires bindings.Valid()
    modifies bindings
    ensures bindings.Valid()
    ensures DeleteEffect(restaurants.docs, old(bindings.docs), g, name, office, reply, bindings.docs)
  {
    if name == "" || office == "" {
      return DeleteUsage;
    }
    var restaurant := FindRestaurantByName(restaurants.docs, name);
    if restaurant.None? {
      return RestaurantNotFound(name);
    }
    var k := TriplePos(bindings.docs, g, office, restaurant.value.id);
    if k == |bindings.docs| {
      return BindingNotFound(name, office);
    }
    bindings.RemoveAt(k);
    reply := Deleted(name, office);
  }

  /** A command of a configured group: the read-only commands change nothing, and each
      writing command has its effect. */
  method RunCommand(c: Command, g: LineId, settings: SettingCollection, bindings: BindingCollection,
                    restaurants: RestaurantCollection, sample: nat)
    returns (out: Outcome)
    requires settings.Valid() && bindings.Valid() && restaurants.Valid()
    requires g in settings.byGroup
    modifies settings, bindings, restaurants
    ensures settings.Valid() && bindings.Valid() && restaurants.Valid()
    ensures !c.AddRestaurant? ==> restaurants.docs == old(restaurants.docs)
    ensures old(restaurants.docs) <= restaurants.docs
    ensures ReadOnly(c) ==>
      && out == ReadOnlyOutcome(c, old(settings.byGroup), old(bindings.docs), old(restaurants.docs), g, sample)
      && settings.byGroup == old(settings.byGroup) && bindings.docs == old(bindings.docs)
    ensures c.SwitchOffice? ==>
      && out.Replied? && bindings.docs == old(bindings.docs)
      && SwitchEffect(old(settings.byGroup), old(bindings.docs), g, c.office, out.reply, settings.byGroup)
    ensures c.AddRestaurant? ==>
      && out.Replied? && settings.byGroup == old(settings.byGroup)
      && AddEffect(old(restaurants.docs), old(restaurants.nextId), old(bindings.docs), old(bindings.nextId),
                   g, c.name, c.office, out.reply, restaurants.docs, bindings.docs)
    ensures c.DeleteRestaurant? ==>
      && out.Replied? && settings.byGroup == old(settings.byGroup)
      && DeleteEffect(old(restaurants.docs), old(bindings.docs), g, c.name, c.office, out.reply, bindings.docs)
  {
    match c {
      case SwitchOffice(office) =>
        var reply := SwitchOfficeCommand(settings, bindings, g, office);
        out := Replied(reply);
      case AddRestaurant(name, office) =>
        var reply := Commands.AddRestaurant(bindings, restaurants, g, name, office);
        AddKeepsRestaurants(old(restaurants.docs), old(restaurants.nextId), old(bindings.docs), old(bindings.nextId),
                            g, name, office, reply, restaurants.docs, bindings.docs);
        out := Replied(reply);
      case DeleteRestaurant(name, office) =>
        var reply := DeleteRestaurantCommand(bindings, restaurants, g, name, office);
        out := Replied(reply);
      case _ =>
        out := ReadOnlyOutcome(c, settings.byGroup, bindings.docs, restaurants.docs, g, sample);
    }
  }

  method HandleEvent(event: Event, settings: SettingCollection, bindings: BindingCollection,
                     restaurants: RestaurantCollection, sample: nat)
    returns (out: Outcome)
    requires settings.Valid() && bindings.Valid() && restaurants.Valid()
    modifies settings, bindings, restaurants
    ensures settings.Valid() && bindings.Valid() && restaurants.Valid()
    ensures !IsText(event) ==>
      out == Ignored && settings.byGroup == old(settings.byGroup) && bindings.docs == old(bindings.docs)
    ensures !IsText(event) || !Classify(Trim(event.message.text)).AddRestaurant? ==>
      restaurants.docs == old(restaurants.docs)
    ensures old(restaurants.docs) <= restaurants.docs
    ensures IsText(event) ==>
      var g := GroupIdOf(event.source);
      var c := Classify(Trim(event.message.text));
      && (g !in old(settings.byGroup) && c == Setup ==>
            out == Replied(SetupCreated) && settings.byGroup == old(settings.byGroup)[g := InitialSetting(g)]
            && bindings.docs == old(bindings.docs))
      && (g !in old(settings.byGroup) && c != Setup ==>
            out == Replied(NotConfigured) && settings.byGroup == old(settings.byGroup)
            && bindings.docs == old(bindings.docs))
      && (g in old(settings.byGroup) && ReadOnly(c) ==>
            out == ReadOnlyOutcome(c, old(settings.byGroup), old(bindings.docs), old(restaurants.docs), g, sample)
            && settings.byGroup == old(settings.byGroup) && bindings.docs == old(bindings.docs))
      && (g in old(settings.byGroup) && c.SwitchOffice? ==>
            out.Replied? && bindings.docs == old(bindings.docs)
            && SwitchEffect(old(settings.byGroup), old(bindings.docs), g, c.office, out.reply, settings.byGroup))
      && (g in old(settings.byGroup) && c.AddRestaurant? ==>
            out.Replied? && settings.byGroup == old(settings.byGroup)
            && AddEffect(old(restaurants.docs), old(restaurants.nextId), old(bindings.docs), old(bindings.nextId),
                         g, c.name, c.office, out.reply, restaurants.docs, bindings.docs))
      && (g in old(settings.byGroup) && c.DeleteRestaurant? ==>
            out.Replied? && settings.byGroup == old(settings.byGroup)
            && DeleteEffect(old(restaurants.docs), old(bindings.docs), g, c.name, c.office, out.reply, bindings.docs))
  {
    if !IsText(event) {
      return Ignored;
    }
    var g := GroupIdOf(event.source);
    var c := Classify(Trim(event.message.text));
    if c == Setup && g !in settings.byGroup {
      var created := settings.Create(g, Some("default"), Some(["default"]), None);
      assert created.Written?;
      return Replied(SetupCreated);
    }
    if g !in settings.byGroup {
      return Replied(NotConfigured);
    }
    out := RunCommand(c, g, settings, bindings, restaurants, sample);
  }

  /** The setup command on a group that is already configured matches no later test: the
      handler resolves to null, for every text that trims to the command. */
  lemma SetupOnConfiguredGroupIgnored(settings: map<string, GroupSetting>, bindings: seq<Binding>,
                                      restaurants: seq<Restaurant>, g: string, sample: nat, text: string)
    requires g in settings && Trim(text) == "/機器人"
    ensures ReadOnlyOutcome(Classify(Trim(text)), settings, bindings, restaurants, g, sample) == Ignored
  {
  }

  /** One such text: the command padded with a space on each side. */
  lemma PaddedSetupIgnored(settings: map<string, GroupSetting>, bindings: seq<Binding>,
                           restaurants: seq<Restaurant>, g: string, sample: nat)
    requires g in settings
    ensures ReadOnlyOutcome(Classify(Trim(" /機器人 ")), settings, bindings, restaurants, g, sample) == Ignored
  {
    var n := "/機器人";
    assert [' '] + n + [' '] == " /機器人 ";
    assert n[0] == '/' && n[|n| - 1] == '人';
    TrimPadded(n);
    SetupOnConfiguredGroupIgnored(settings, bindings, restaurants, g, sample, " /機器人 ");
  }

  /** The parts of `name + " " + office` for two words without a space. */
  lemma {:induction false} TwoWords(name: string, office: string)
    requires ' ' !in name && ' ' !in office
    ensures Split([' '] + name + [' '] + office, ' ') == ["", name, office]
  {
    var t1 := [' '] + office;
    SplitWord(office, ' ');
    SplitSep(office, ' ');
    SplitPrefix(name, t1, ' ');
    assert name + Split(t1, ' ')[0] == name;
    assert Split(name + t1, ' ') == [name, office];
    SplitSep(name + t1, ' ');
    assert [' '] + name + [' '] + office == [' '] + (name + t1);
  }

  /** A well-formed add command yields its two words as name and office. */
  lemma {:induction false} AddCommandArguments(name: string, office: string)
    requires ' ' !in name && ' ' !in office
    ensures Classify("/新增餐廳" + [' '] + name + [' '] + office) == AddRestaurant(name, office)
  {
    var t := [' '] + name + [' '] + office;
    var msg := "/新增餐廳" + t;
    assert msg == "/新增餐廳" + [' '] + name + [' '] + office;
    TwoWords(name, office);
    SplitPrefix("/新增餐廳", t, ' ');
    assert "/新增餐廳" + Split(t, ' ')[0] == "/新增餐廳";
    assert Split(msg, ' ') == ["/新增餐廳", name, office];
    assert StartsWith(msg, "/新增餐廳") by { assert msg[..|"/新增餐廳"|] == "/新增餐廳"; }
  }

  /** Two spaces between the command and the name make the name the empty part between
      them, so the command answers with its usage. */
  lemma {:induction false} DoubleSpaceIsUsage(name: string, office: string)
    requires ' ' !in name && ' ' !in office
    ensures Classify("/刪除餐廳" + [' ', ' '] + name + [' '] + office) == DeleteRestaurant("", name)
  {
    var t := [' '] + name + [' '] + office;
    var msg := "/刪除餐廳" + ([' '] + t);
    assert msg == "/刪除餐廳" + [' ', ' '] + name + [' '] + office;
    TwoWords(name, office);
    SplitSep(t, ' ');
    SplitPrefix("/刪除餐廳", [' '] + t, ' ');
    assert "/刪除餐廳" + Split([' '] + t, ' ')[0] == "/刪除餐廳";
    assert Split(msg, ' ') == ["/刪除餐廳", "", name, office];
    assert StartsWith(msg, "/刪除餐廳") by { assert msg[..|"/刪除餐廳"|] == "/刪除餐廳"; }
  }
}
