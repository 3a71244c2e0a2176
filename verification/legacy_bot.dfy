/** The older `handleEvent` of index.js. It has no setup command and no "not configured"
    gate. Its office switch is an unchecked upsert. Its draw command is compared with the
    untrimmed text. The schemas it was written against (the root models directory) have no
    `isActiveInOffice`, `officeOption` or `lunchNotification`; its records are given the
    current schemas' shape with those fields at their defaults. */
module LegacyBot {
  import opened JsText
  import opened Schema
  import opened Collections
  import opened Draw
  import opened Commands

  datatype LegacyCommand =
    | Relocate(office: string) | ListCurrent | AddRestaurant(name: string, office: string) | ListOffices
    | Lottery | NoCommand

  /** The command a message asks for: `msg` is the trimmed text, `raw` the text as sent. */
  function LegacyClassify(msg: string, raw: string): (c: LegacyCommand)
    ensures c.Relocate? <==> StartsWith(msg, "/切換地點")
    ensures c == ListCurrent <==> msg == "/列表"
    ensures c.AddRestaurant? <==> StartsWith(msg, "/新增餐廳") && !StartsWith(msg, "/切換地點")
    ensures c == ListOffices <==> msg == "/辦公室列表"
    ensures c == Lottery <==> raw == "抽獎" && !StartsWith(msg, "/切換地點") && !StartsWith(msg, "/新增餐廳")
                                && msg != "/列表" && msg != "/辦公室列表"
    ensures c.Relocate? ==> c.office == Arg(msg, 1)
    ensures c.AddRestaurant? ==> c.name == Arg(msg, 1) && c.office == Arg(msg, 2)
  {
    if StartsWith(msg, "/切換地點") then
      assert msg[1] == '切' && "/辦公室列表"[1] == '辦';
      Relocate(Arg(msg, 1))
    else if msg == "/列表" then
      assert msg[1] == '列' && "/新增餐廳"[1] == '新';
      ListCurrent
    else if StartsWith(msg, "/新增餐廳") then AddRestaurant(Arg(msg, 1), Arg(msg, 2))
    else if msg == "/辦公室列表" then
      assert msg[1] == '辦' && "/切換地點"[1] == '切' && "/新增餐廳"[1] == '新';
      ListOffices
    else if raw == "抽獎" then Lottery
    else NoCommand
  }

  /** The effect of `/切換地點 office`: without an argument nothing changes; otherwise the
      group's `currentOffice` becomes `office` with no check against its offices, and the
      group's settings are created if they did not exist. */
  predicate RelocateEffect(settings: map<string, GroupSetting>, g: string, office: string, reply: Reply,
                           settings': map<string, GroupSetting>)
  {
    if office == "" then reply == SwitchUsage && settings' == settings
    else
      var s := if g in settings then settings[g].(currentOffice := office) else GroupSetting(g, false, office, []);
      reply == Switched(office) && settings' == settings[g := s]
  }

  /** `/切換地點` on the settings collection (`findOneAndUpdate` with `upsert: true`). */
  method RelocateCommand(settings: SettingCollection, g: LineId, office: string) returns (reply: Reply)
    requires settings.Valid()
    modifies settings
    ensures settings.Valid()
    ensures RelocateEffect(old(settings.byGroup), g, office, reply, settings.byGroup)
  {
    if office == "" {
      return SwitchUsage;
    }
    var s := if g in settings.byGroup then settings.byGroup[g].(currentOffice := office)
             else GroupSetting(g, false, office, []);
    settings.Save(s);
    reply := Switched(office);
  }

  /** The reply of a command that writes nothing. */
  function LegacyReadOnlyOutcome(c: LegacyCommand, settings: map<string, GroupSetting>, bindings: seq<Binding>,
                                 restaurants: seq<Restaurant>, g: string, sample: nat): (o: Outcome)
    requires !c.Relocate? && !c.AddRestaurant?
    ensures o == Ignored <==> c == NoCommand
  {
    match c
    case ListCurrent => CurrentListReply(settings, bindings, restaurants, g)
    case ListOffices => Replied(OfficeListReply(bindings, g))
    case Lottery => Replied(EatReply(settings, bindings, restaurants, g, sample))
    case NoCommand => Ignored
  }

  method LegacyHandleEvent(event: Event, settings: SettingCollection, bindings: BindingCollection,
                           restaurants: RestaurantCollection, sample: nat)
    returns (out: Outcome)
    requires settings.Valid() && bindings.Valid() && restaurants.Valid()
    modifies settings, bindings, restaurants
    ensures settings.Valid() && bindings.Valid() && restaurants.Valid()
    ensures !IsText(event) ==>
      && out == Ignored && settings.byGroup == old(settings.byGroup)
      && bindings.docs == old(bindings.docs) && restaurants.docs == old(restaurants.docs)
    ensures old(restaurants.docs) <= restaurants.docs
    ensures IsText(event) ==>
      var g := GroupIdOf(event.source);
      var c := LegacyClassify(Trim(event.message.text), event.message.text);
      && (c.Relocate? ==>
            out.Replied? && RelocateEffect(old(settings.byGroup), g, c.office, out.reply, settings.byGroup)
            && bindings.docs == old(bindings.docs) && restaurants.docs == old(restaurants.docs))
      && (c.AddRestaurant? ==>
            out.Replied? && settings.byGroup == old(settings.byGroup)
            && AddEffect(old(restaurants.docs), old(restaurants.nextId), old(bindings.docs), old(bindings.nextId),
                         g, c.name, c.office, out.reply, restaurants.docs, bindings.docs))
      && (!c.Relocate? && !c.AddRestaurant? ==>
            out == LegacyReadOnlyOutcome(c, old(settings.byGroup), old(bindings.docs), old(restaurants.docs), g, sample)
            && settings.byGroup == old(settings.byGroup) && bindings.docs == old(bindings.docs)
            && restaurants.docs == old(restaurants.docs))
  {
    if !IsText(event) {
      return Ignored;
    }
    var g := GroupIdOf(event.source);
    var c := LegacyClassify(Trim(event.message.text), event.message.text);
    match c {
      case Relocate(office) =>
        var reply := RelocateCommand(settings, g, office);
        out := Replied(reply);
      case AddRestaurant(name, office) =>
        var reply := Commands.AddRestaurant(bindings, restaurants, g, name, office);
        out := Replied(reply);
      case _ =>
        out := LegacyReadOnlyOutcome(c, settings.byGroup, bindings.docs, restaurants.docs, g, sample);
    }
  }

  /** Relocation always lands on the requested office, whether or not any binding names it,
      and gives a group without settings a fresh record. */
  lemma RelocateUnchecked(settings: map<string, GroupSetting>, g: string, office: string, reply: Reply,
                          settings': map<string, GroupSetting>)
    requires RelocateEffect(settings, g, office, reply, settings')
    requires office != ""
    ensures reply == Switched(office) && g in settings' && settings'[g].currentOffice == office
    ensures g !in settings ==> settings'[g] == GroupSetting(g, false, office, [])
    ensures g in settings ==> settings'[g].officeOption == settings[g].officeOption
    ensures forall h :: h in settings && h != g ==> h in settings' && settings'[h] == settings[h]
  {
  }

  /** The newer handler refuses to switch to an office no binding names; the older one
      switches anyway. */
  lemma RelocateVersusSwitch(settings: map<string, GroupSetting>, bindings: seq<Binding>, g: string, office: string,
                             reply1: Reply, settings1: map<string, GroupSetting>,
                             reply2: Reply, settings2: map<string, GroupSetting>)
    requires g in settings && office != ""
    requires forall b :: b in bindings ==> b.office != office
    requires SwitchEffect(settings, bindings, g, office, reply1, settings1)
    requires RelocateEffect(settings, g, office, reply2, settings2)
    ensures reply1.UnknownOffice? && settings1 == settings
    ensures reply2 == Switched(office) && settings2[g].currentOffice == office
  {
    assert office !in DistinctOffices(bindings, g);
  }

  /** The draw command must be sent exactly: a leading space, which every other command
      tolerates, makes it no command at all. */
  lemma LotteryNeedsExactText()
    ensures Trim(" 抽獎") == "抽獎"
    ensures LegacyClassify(Trim(" 抽獎"), " 抽獎") == NoCommand
    ensures LegacyClassify("抽獎", "抽獎") == Lottery
  {
    var p, n := " 抽獎", "抽獎";
    assert p[1..] == n && !IsSpace(n[0]) && !IsSpace(n[|n| - 1]);
    assert TrimStart(n) == n;
    assert TrimStart(p) == n;
    assert TrimEnd(n) == n;
    assert Trim(p) == n;
  }
}
