/** The `/group-setting` routes (server/routes/groupSettingRouter.js) on the settings
    collection. None of them looks at the bindings, and none checks that `currentOffice` is
    one of `officeOption`. */
module SettingRouter {
  import opened JsText
  import opened Schema
  import opened Collections

  /** `GET /:id`: the group's settings with 200, or 404. */
  function GetSetting(settings: map<string, GroupSetting>, groupId: string): (r: (nat, Option<GroupSetting>))
    ensures r.0 == 404 <==> groupId !in settings
    ensures r.0 == 200 <==> groupId in settings
    ensures r.1.Some? <==> r.0 == 200
    ensures r.1.Some? ==> r.1.value == settings[groupId]
  {
    if groupId in settings then (200, Some(settings[groupId])) else (404, None)
  }

  /** `POST /` with `{ groupId, currentOffice, officeOption }`: 400 when the group already
      has settings, 500 when validation fails (a missing group id, an empty office), and
      otherwise 201 with the settings stored as given and `lunchNotification` at its default. */
  predicate PostEffect(settings: map<string, GroupSetting>, groupId: Option<string>, currentOffice: Option<string>,
                       officeOption: Option<seq<string>>, status: nat, settings': map<string, GroupSetting>) {
    if Truthy(groupId) && groupId.value in settings then status == 400 && settings' == settings
    else
      var s := NewGroupSetting(OrDefault(groupId, ""), currentOffice, officeOption, None);
      if s.None? then status == 500 && settings' == settings
      else status == 201 && settings' == settings[groupId.value := s.value]
  }

  method PostSetting(settings: SettingCollection, groupId: Option<string>, currentOffice: Option<string>,
                     officeOption: Option<seq<string>>)
    returns (status: nat)
    requires settings.Valid()
    modifies settings
    ensures settings.Valid()
    ensures PostEffect(old(settings.byGroup), groupId, currentOffice, officeOption, status, settings.byGroup)
  {
    if Truthy(groupId) && groupId.value in settings.byGroup {
      return 400;
    }
    var created := settings.Create(OrDefault(groupId, ""), currentOffice, officeOption, None);
    if created.Written? {
      status := 201;
    } else {
      status := 500;
    }
  }

  /** What a successful POST stores: the given office even when the given list does not
      hold it, and never a notification flag other than false. A second POST for the same
      group is refused. */
  lemma PostStoresAsGiven(settings: map<string, GroupSetting>, g: string, currentOffice: Option<string>,
                          officeOption: Option<seq<string>>, status: nat, settings': map<string, GroupSetting>)
    requires PostEffect(settings, Some(g), currentOffice, officeOption, status, settings')
    requires status == 201
    ensures g !in settings && g in settings'
    ensures settings'[g].currentOffice == Default(currentOffice, "default")
    ensures settings'[g].officeOption == Default(officeOption, [])
    ensures !settings'[g].lunchNotification
    ensures forall status2, settings2 ::
      PostEffect(settings', Some(g), currentOffice, officeOption, status2, settings2) ==> status2 == 400 && settings2 == settings'
  {
  }

  /** A group whose office is not among its options can be created. */
  lemma PostWithoutMembership()
    ensures var m := map[];
      PostEffect(m, Some("G"), Some("HQ"), Some([]), 201, m["G" := GroupSetting("G", false, "HQ", [])])
  {
  }

  /** `PUT /:id` with `{ currentOffice, officeOption }` (`findOneAndUpdate`, no upsert): 404
      and nothing created for an unknown group; otherwise the given fields are overwritten.
      Update validators do not run, so an empty office is written too. */
  predicate PutEffect(settings: map<string, GroupSetting>, groupId: string, currentOffice: Option<string>,
                      officeOption: Option<seq<string>>, status: nat, settings': map<string, GroupSetting>) {
    if groupId !in settings then status == 404 && settings' == settings
    else
      var s := settings[groupId];
      status == 200
      && settings' == settings[groupId := s.(currentOffice := Default(currentOffice, s.currentOffice),
                                             officeOption := Default(officeOption, s.officeOption))]
  }

  method PutSetting(settings: SettingCollection, groupId: string, currentOffice: Option<string>,
                    officeOption: Option<seq<string>>)
    returns (status: nat)
    requires settings.Valid()
    modifies settings
    ensures settings.Valid()
    ensures PutEffect(old(settings.byGroup), groupId, currentOffice, officeOption, status, settings.byGroup)
  {
    if groupId !in settings.byGroup {
      return 404;
    }
    var s := settings.byGroup[groupId];
    settings.Save(s.(currentOffice := Default(currentOffice, s.currentOffice),
                     officeOption := Default(officeOption, s.officeOption)));
    status := 200;
  }

  /** PUT keeps the set of configured groups and every other group's settings, never changes
      `lunchNotification`, and a GET after a full PUT returns what was put. */
  lemma PutThenGet(settings: map<string, GroupSetting>, g: string, office: string, options: seq<string>,
                   status: nat, settings': map<string, GroupSetting>)
    requires PutEffect(settings, g, Some(office), Some(options), status, settings')
    ensures settings'.Keys == settings.Keys
    ensures forall h :: h in settings && h != g ==> settings'[h] == settings[h]
    ensures g in settings ==>
      && GetSetting(settings', g) == (200, Some(settings[g].(currentOffice := office, officeOption := options)))
      && settings'[g].lunchNotification == settings[g].lunchNotification
    ensures g !in settings ==> GetSetting(settings', g).0 == 404
  {
  }

  /** Repeating a PUT changes nothing more. */
  lemma PutIdempotent(settings: map<string, GroupSetting>, g: string, currentOffice: Option<string>,
                      officeOption: Option<seq<string>>, status1: nat, settings1: map<string, GroupSetting>,
                      status2: nat, settings2: map<string, GroupSetting>)
    requires PutEffect(settings, g, currentOffice, officeOption, status1, settings1)
    requires PutEffect(settings1, g, currentOffice, officeOption, status2, settings2)
    ensures settings2 == settings1 && status2 == status1
  {
  }
}
